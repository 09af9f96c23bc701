/**
 * The recursive-descent parser as functions of the token stream and the index of the current
 * token.
 *
 * The stream is the list of tokens the scanner returns up to the one after which it reports the
 * end; past the list every token is "EOF", as the scanner answers once its input is exhausted.
 * Each function returns the tree it builds and the index of the token after it, the error an
 * `eat` raises, or `Diverges` where the parser loops for ever: a list loop (call arguments, VAR
 * names, parameters) that reaches the end of the stream eats "EOF" as a name and sees "EOF" again.
 */
module Parsing {
  import opened Options
  import opened JavaInt
  import opened Decimal
  import opened Ast

  /** `eat(expected)` met `found`. */
  datatype ParseError = Expected(expected: string, found: string)

  datatype PResult<T> = Parsed(value: T, next: nat) | Failed(error: ParseError) | Diverges

  /** The current token at index `p`: "EOF" for ever past the end of the list. */
  function Tok(t: seq<string>, p: nat): string {
    if p < |t| then t[p] else "EOF"
  }

  /** The tokens of the list not yet read. */
  function Rem(t: seq<string>, p: nat): nat {
    if p < |t| then |t| - p else 0
  }

  /** The error `eat(expected)` raises at index `p`. */
  function Fail<T>(t: seq<string>, p: nat, expected: string): PResult<T> {
    Failed(Expected(expected, Tok(t, p)))
  }

  predicate IsCompOp(s: string) {
    s == "=" || s == "<>" || s == "<" || s == ">" || s == "<=" || s == ">="
  }

  /** The keywords that start a statement other than an assignment. */
  predicate IsStatementKeyword(s: string) {
    s == "WRITELN" || s == "BEGIN" || s == "IF" || s == "WHILE"
  }

  // ---------------------------------------------------------------------------------------------
  // Expressions
  // ---------------------------------------------------------------------------------------------

  /**
   * `parseFactor`: a parenthesized expression, a unary minus (as `0 - factor`), a number (any
   * token `Integer.parseInt` accepts), a call `name ( args )`, or else a variable: every other
   * token, ";" and ")" included, is taken as a name.
   */
  function ParseFactor(t: seq<string>, p: nat): (r: PResult<Expr>)
    ensures r.Parsed? ==> r.next > p
    decreases Rem(t, p), 0
  {
    var c := Tok(t, p);
    if c == "(" then
      match ParseExpression(t, p + 1)
      case Parsed(e, q) => if Tok(t, q) == ")" then Parsed(e, q + 1) else Fail(t, q, ")")
      case Failed(err) => Failed(err)
      case Diverges => Diverges
    else if c == "-" then
      match ParseFactor(t, p + 1)
      case Parsed(f, q) => Parsed(BinOp("-", Number(0), f), q)
      case Failed(err) => Failed(err)
      case Diverges => Diverges
    else if ParseInt(c).Some? then
      Parsed(Number(ParseInt(c).value), p + 1)
    else if Tok(t, p + 1) == "(" then
      match ParseArgs(t, p + 2, [])
      case Parsed(args, q) => Parsed(ProcedureCall(c, args), q)
      case Failed(err) => Failed(err)
      case Diverges => Diverges
    else
      Parsed(Variable(c), p + 1)
  }

  /**
   * The argument loop of a call: expressions, each optionally followed by ",", up to ")", which
   * it eats. Past the end of the stream the loop never ends.
   */
  function ParseArgs(t: seq<string>, p: nat, acc: seq<Expr>): (r: PResult<seq<Expr>>)
    ensures r.Parsed? ==> r.next > p
    decreases Rem(t, p), 5
  {
    if Tok(t, p) == ")" then Parsed(acc, p + 1)
    else if p >= |t| then Diverges
    else
      match ParseExpression(t, p)
      case Parsed(e, q) =>
        if Tok(t, q) == "," then ParseArgs(t, q + 1, acc + [e]) else ParseArgs(t, q, acc + [e])
      case Failed(err) => Failed(err)
      case Diverges => Diverges
  }

  /** `parseTerm`: a factor, then the loop over "*" and "/". */
  function ParseTerm(t: seq<string>, p: nat): (r: PResult<Expr>)
    ensures r.Parsed? ==> r.next > p
    decreases Rem(t, p), 2
  {
    match ParseFactor(t, p)
    case Parsed(f, q) => TermLoop(t, f, q)
    case Failed(err) => Failed(err)
    case Diverges => Diverges
  }

  /** The loop of `parseTerm`, with `acc` the term built so far (the left operand of the next). */
  function TermLoop(t: seq<string>, acc: Expr, p: nat): (r: PResult<Expr>)
    ensures r.Parsed? ==> r.next >= p
    decreases Rem(t, p), 1
  {
    var c := Tok(t, p);
    if c == "/" || c == "*" then
      match ParseFactor(t, p + 1)
      case Parsed(f, q) => TermLoop(t, BinOp(c, acc, f), q)
      case Failed(err) => Failed(err)
      case Diverges => Diverges
    else Parsed(acc, p)
  }

  /** `parseExpression`: a term, then the loop over "+" and "-". */
  function ParseExpression(t: seq<string>, p: nat): (r: PResult<Expr>)
    ensures r.Parsed? ==> r.next > p
    decreases Rem(t, p), 4
  {
    match ParseTerm(t, p)
    case Parsed(f, q) => ExprLoop(t, f, q)
    case Failed(err) => Failed(err)
    case Diverges => Diverges
  }

  /** The loop of `parseExpression`, with `acc` the expression built so far. */
  function ExprLoop(t: seq<string>, acc: Expr, p: nat): (r: PResult<Expr>)
    ensures r.Parsed? ==> r.next >= p
    decreases Rem(t, p), 3
  {
    var c := Tok(t, p);
    if c == "+" || c == "-" then
      match ParseTerm(t, p + 1)
      case Parsed(f, q) => ExprLoop(t, BinOp(c, acc, f), q)
      case Failed(err) => Failed(err)
      case Diverges => Diverges
    else Parsed(acc, p)
  }

  // ---------------------------------------------------------------------------------------------
  // Conditions and statements
  // ---------------------------------------------------------------------------------------------

  /** `parseCompOp`: one of the six comparison operators; anything else fails in `eat(">=")`. */
  function ParseCompOp(t: seq<string>, p: nat): (r: PResult<string>)
    ensures r.Parsed? <==> IsCompOp(Tok(t, p))
    ensures r.Parsed? ==> r.value == Tok(t, p) && r.next == p + 1
    ensures !r.Parsed? ==> r == Failed(Expected(">=", Tok(t, p)))
  {
    var c := Tok(t, p);
    if c == "=" then Parsed("=", p + 1)
    else if c == "<>" then Parsed("<>", p + 1)
    else if c == "<" then Parsed("<", p + 1)
    else if c == ">" then Parsed(">", p + 1)
    else if c == "<=" then Parsed("<=", p + 1)
    else if c == ">=" then Parsed(">=", p + 1)
    else Fail(t, p, ">=")
  }

  /** `parseCondition`: expression, comparison operator, expression. */
  function ParseCondition(t: seq<string>, p: nat): (r: PResult<Condition>)
    ensures r.Parsed? ==> r.next > p
    decreases Rem(t, p), 6
  {
    match ParseExpression(t, p)
    case Parsed(l, q) =>
      (match ParseCompOp(t, q)
       case Parsed(op, q2) =>
         (match ParseExpression(t, q2)
          case Parsed(r, q3) => Parsed(Condition(op, l, r), q3)
          case Failed(err) => Failed(err)
          case Diverges => Diverges)
       case Failed(err) => Failed(err)
       case Diverges => Diverges)
    case Failed(err) => Failed(err)
    case Diverges => Diverges
  }

  /**
   * `parseStatement`: WRITELN ( expr ) ;, BEGIN statements END ;, IF condition THEN statement
   * (never with an else branch), WHILE condition DO statement, or else name := expr ;.
   * A parsed statement always consumes at least one token of the list.
   */
  function ParseStatement(t: seq<string>, p: nat): (r: PResult<Stmt>)
    ensures r.Parsed? ==> p < |t| && p < r.next <= |t|
    decreases Rem(t, p), 7
  {
    var c := Tok(t, p);
    if c == "WRITELN" then ParseWriteln(t, p)
    else if c == "BEGIN" then ParseBeginEnd(t, p)
    else if c == "IF" then ParseIfThen(t, p)
    else if c == "WHILE" then ParseWhileDo(t, p)
    else ParseAssignment(t, p)
  }

  function ParseWriteln(t: seq<string>, p: nat): (r: PResult<Stmt>)
    requires Tok(t, p) == "WRITELN"
    ensures r.Parsed? ==> p < r.next <= |t|
    decreases Rem(t, p), 6
  {
    if Tok(t, p + 1) != "(" then Fail(t, p + 1, "(")
    else
      match ParseExpression(t, p + 2)
      case Parsed(e, q) =>
        if Tok(t, q) != ")" then Fail(t, q, ")")
        else if Tok(t, q + 1) != ";" then Fail(t, q + 1, ";")
        else Parsed(Writeln(e), q + 2)
      case Failed(err) => Failed(err)
      case Diverges => Diverges
  }

  function ParseBeginEnd(t: seq<string>, p: nat): (r: PResult<Stmt>)
    requires Tok(t, p) == "BEGIN"
    ensures r.Parsed? ==> p < r.next <= |t|
    decreases Rem(t, p), 6
  {
    match BlockLoop(t, p + 1, [])
    case Parsed(ss, q) => if Tok(t, q + 1) != ";" then Fail(t, q + 1, ";") else Parsed(Block(ss), q + 2)
    case Failed(err) => Failed(err)
    case Diverges => Diverges
  }

  function ParseIfThen(t: seq<string>, p: nat): (r: PResult<Stmt>)
    requires Tok(t, p) == "IF"
    ensures r.Parsed? ==> p < r.next <= |t|
    decreases Rem(t, p), 6
  {
    match ParseCondition(t, p + 1)
    case Parsed(cond, q) =>
      if Tok(t, q) != "THEN" then Fail(t, q, "THEN")
      else
        (match ParseStatement(t, q + 1)
         case Parsed(s, q2) => Parsed(If(cond, s, None), q2)
         case Failed(err) => Failed(err)
         case Diverges => Diverges)
    case Failed(err) => Failed(err)
    case Diverges => Diverges
  }

  function ParseWhileDo(t: seq<string>, p: nat): (r: PResult<Stmt>)
    requires Tok(t, p) == "WHILE"
    ensures r.Parsed? ==> p < r.next <= |t|
    decreases Rem(t, p), 6
  {
    match ParseCondition(t, p + 1)
    case Parsed(cond, q) =>
      if Tok(t, q) != "DO" then Fail(t, q, "DO")
      else
        (match ParseStatement(t, q + 1)
         case Parsed(s, q2) => Parsed(While(cond, s), q2)
         case Failed(err) => Failed(err)
         case Diverges => Diverges)
    case Failed(err) => Failed(err)
    case Diverges => Diverges
  }

  /** The fallback: the current token, whatever it is, is the assigned name. */
  function ParseAssignment(t: seq<string>, p: nat): (r: PResult<Stmt>)
    ensures r.Parsed? ==> p + 1 < |t| && p < r.next <= |t|
    decreases Rem(t, p), 6
  {
    if Tok(t, p + 1) != ":=" then Fail(t, p + 1, ":=")
    else
      match ParseExpression(t, p + 2)
      case Parsed(e, q) => if Tok(t, q) != ";" then Fail(t, q, ";") else Parsed(Assignment(Tok(t, p), e), q + 1)
      case Failed(err) => Failed(err)
      case Diverges => Diverges
  }

  /** The loop of a BEGIN block: statements up to "END", which it leaves as the current token. */
  function BlockLoop(t: seq<string>, p: nat, acc: seq<Stmt>): (r: PResult<seq<Stmt>>)
    ensures r.Parsed? ==> r.next >= p && Tok(t, r.next) == "END"
    decreases Rem(t, p), 8
  {
    if Tok(t, p) == "END" then Parsed(acc, p)
    else
      match ParseStatement(t, p)
      case Parsed(s, q) => BlockLoop(t, q, acc + [s])
      case Failed(err) => Failed(err)
      case Diverges => Diverges
  }

  // ---------------------------------------------------------------------------------------------
  // Programs
  // ---------------------------------------------------------------------------------------------

  /**
   * The name loops of a VAR list (closed by ";") and of a parameter list (closed by ")"): names,
   * each optionally followed by ",", up to `close`, which is left as the current token. Past the
   * end of the stream the loop never ends.
   */
  function ParseNames(t: seq<string>, p: nat, close: string, acc: seq<string>): (r: PResult<seq<string>>)
    ensures r.Parsed? ==> r.next >= p && Tok(t, r.next) == close
    ensures !r.Failed?
    decreases Rem(t, p)
  {
    if Tok(t, p) == close then Parsed(acc, p)
    else if p >= |t| then Diverges
    else if Tok(t, p + 1) == "," then ParseNames(t, p + 2, close, acc + [Tok(t, p)])
    else ParseNames(t, p + 1, close, acc + [Tok(t, p)])
  }

  /** The loop over VAR sections; the names of all of them are collected in one list. */
  function VarSections(t: seq<string>, p: nat, acc: seq<string>): (r: PResult<seq<string>>)
    ensures r.Parsed? ==> r.next >= p && Tok(t, r.next) != "VAR"
    ensures !r.Failed?
    decreases Rem(t, p)
  {
    if Tok(t, p) == "VAR" then
      match ParseNames(t, p + 1, ";", acc)
      case Parsed(vs, q) => VarSections(t, q + 1, vs)
      case Failed(err) => Failed(err)
      case Diverges => Diverges
    else Parsed(acc, p)
  }

  /** One VAR section: its names, then the sections after its ';'. */
  lemma VarSectionsStep(t: seq<string>, p: nat, acc: seq<string>)
    requires Tok(t, p) == "VAR"
    ensures var n := ParseNames(t, p + 1, ";", acc);
      (n.Parsed? ==> VarSections(t, p, acc) == VarSections(t, n.next + 1, n.value)) &&
      (!n.Parsed? ==> VarSections(t, p, acc) == Diverges)
  {
  }

  /** The head PROCEDURE name ( params ) ; of a declaration: its name and parameter names. */
  function ParseProcHead(t: seq<string>, p: nat): (r: PResult<(string, seq<string>)>)
    requires Tok(t, p) == "PROCEDURE"
    ensures r.Parsed? ==> r.next > p
  {
    var name := Tok(t, p + 1);
    if Tok(t, p + 2) != "(" then Fail(t, p + 2, "(")
    else
      match ParseNames(t, p + 3, ")", [])
      case Parsed(params, q) =>
        if Tok(t, q + 1) != ";" then Fail(t, q + 1, ";") else Parsed((name, params), q + 2)
      case Failed(err) => Failed(err)
      case Diverges => Diverges
  }

  /** One declaration: its head, then the body statement. */
  function ParseProcDecl(t: seq<string>, p: nat): (r: PResult<ProcDecl>)
    requires Tok(t, p) == "PROCEDURE"
    ensures r.Parsed? ==> r.next > p
  {
    match ParseProcHead(t, p)
    case Parsed((name, params), q) =>
      (match ParseStatement(t, q)
       case Parsed(body, q2) => Parsed(ProcDecl(name, body, params), q2)
       case Failed(err) => Failed(err)
       case Diverges => Diverges)
    case Failed(err) => Failed(err)
    case Diverges => Diverges
  }

  /** The loop over PROCEDURE declarations. */
  function ProcDecls(t: seq<string>, p: nat, acc: seq<ProcDecl>): (r: PResult<seq<ProcDecl>>)
    ensures r.Parsed? ==> r.next >= p && Tok(t, r.next) != "PROCEDURE"
    decreases Rem(t, p)
  {
    if Tok(t, p) != "PROCEDURE" then Parsed(acc, p)
    else
      match ParseProcDecl(t, p)
      case Parsed(d, q) => ProcDecls(t, q, acc + [d])
      case Failed(err) => Failed(err)
      case Diverges => Diverges
  }

  /** `parseProgram`: VAR sections, then procedure declarations, then one statement. */
  function ParseProgram(t: seq<string>): (r: PResult<Program>)
    ensures r.Parsed? ==> 0 < r.next <= |t|
  {
    match VarSections(t, 0, [])
    case Parsed(vars, p) =>
      (match ProcDecls(t, p, [])
       case Parsed(procs, q) =>
         (match ParseStatement(t, q)
          case Parsed(s, q2) => Parsed(Program(vars, procs, s), q2)
          case Failed(err) => Failed(err)
          case Diverges => Diverges)
       case Failed(err) => Failed(err)
       case Diverges => Diverges)
    case Failed(err) => Failed(err)
    case Diverges => Diverges
  }
}
