/**
 * The parser object: the token stream, the index of the current token and `currentToken` itself.
 * Every method follows the function of the same name in `Parsing`, starting from the index the
 * method is called at, and leaves the parser after the last token it consumed.
 *
 * Where the parser would loop for ever (a list loop at the end of the stream), the method stops
 * at the head of the first iteration that can no longer consume a token of the list and answers
 * `Diverges`.
 */
module ParserObject {
  import opened Options
  import opened Decimal
  import opened Ast
  import P = Parsing

  class Parser {
    const tokens: seq<string>
    var pos: nat
    var currentToken: string

    /** `currentToken` is the token at `pos`. */
    predicate Valid()
      reads this
    {
      currentToken == P.Tok(tokens, pos)
    }

    /** `Parser(scanner)` over the text's whole token stream, scanned beforehand: the first token is current. */
    constructor(stream: seq<string>)
      ensures Valid() && tokens == stream && pos == 0
    {
      tokens := stream;
      pos := 0;
      currentToken := P.Tok(stream, 0);
    }

    /** `eat`: advances only when the current token is `expected`; otherwise consumes nothing. */
    method Eat(expected: string) returns (err: Option<P.ParseError>)
      requires Valid()
      modifies this
      ensures Valid()
      ensures old(currentToken) == expected ==> err == None && pos == old(pos) + 1
      ensures old(currentToken) != expected ==>
        err == Some(P.Expected(expected, old(currentToken))) && pos == old(pos)
    {
      if expected == currentToken {
        pos := pos + 1;
        currentToken := P.Tok(tokens, pos);
        err := None;
      } else {
        err := Some(P.Expected(expected, currentToken));
      }
    }

    method ParseFactor() returns (r: P.PResult<Expr>)
      requires Valid()
      modifies this
      ensures Valid()
      ensures r == P.ParseFactor(tokens, old(pos))
      ensures r.Parsed? ==> pos == r.next
      decreases P.Rem(tokens, pos), 0
    {
      if currentToken == "(" {
        var _ := Eat("(");
        var e := ParseExpression();
        if !e.Parsed? {
          return e;
        }
        var err := Eat(")");
        if err.Some? {
          return P.Failed(err.value);
        }
        return P.Parsed(e.value, pos);
      } else if currentToken == "-" {
        var _ := Eat("-");
        var f := ParseFactor();
        if !f.Parsed? {
          return f;
        }
        return P.Parsed(BinOp("-", Number(0), f.value), pos);
      }
      var token := currentToken;
      var n := ParseInt(currentToken);
      if n.Some? {
        var _ := Eat(currentToken);
        return P.Parsed(Number(n.value), pos);
      }
      var _ := Eat(currentToken);
      if currentToken != "(" {
        return P.Parsed(Variable(token), pos);
      }
      var _ := Eat("(");
      ghost var start := pos;
      var params: seq<Expr> := [];
      while currentToken != ")"
        invariant Valid() && start <= pos
        invariant P.ParseArgs(tokens, pos, params) == P.ParseArgs(tokens, start, [])
        invariant P.ParseFactor(tokens, old(pos)) ==
          match P.ParseArgs(tokens, start, [])
          case Parsed(args, q) => P.Parsed(ProcedureCall(token, args), q)
          case Failed(err) => P.Failed(err)
          case Diverges => P.Diverges
        decreases P.Rem(tokens, pos)
      {
        if pos >= |tokens| {
          return P.Diverges;
        }
        var e := ParseExpression();
        if !e.Parsed? {
          return if e.Failed? then P.Failed(e.error) else P.Diverges;
        }
        params := params + [e.value];
        if currentToken == "," {
          var _ := Eat(",");
        }
      }
      var _ := Eat(")");
      return P.Parsed(ProcedureCall(token, params), pos);
    }

    method ParseTerm() returns (r: P.PResult<Expr>)
      requires Valid()
      modifies this
      ensures Valid()
      ensures r == P.ParseTerm(tokens, old(pos))
      ensures r.Parsed? ==> pos == r.next
      decreases P.Rem(tokens, pos), 2
    {
      var f := ParseFactor();
      if !f.Parsed? {
        return f;
      }
      var val := f.value;
      while currentToken == "/" || currentToken == "*"
        invariant Valid() && P.Rem(tokens, pos) <= P.Rem(tokens, old(pos))
        invariant P.TermLoop(tokens, val, pos) == P.ParseTerm(tokens, old(pos))
        decreases P.Rem(tokens, pos)
      {
        var op := currentToken;
        ghost var here := pos;
        var _ := Eat(op);
        var g := ParseFactor();
        if !g.Parsed? {
          assert P.TermLoop(tokens, val, here) == g;
          return g;
        }
        assert P.TermLoop(tokens, val, here) == P.TermLoop(tokens, BinOp(op, val, g.value), pos);
        val := BinOp(op, val, g.value);
      }
      return P.Parsed(val, pos);
    }

    method ParseExpression() returns (r: P.PResult<Expr>)
      requires Valid()
      modifies this
      ensures Valid()
      ensures r == P.ParseExpression(tokens, old(pos))
      ensures r.Parsed? ==> pos == r.next
      decreases P.Rem(tokens, pos), 4
    {
      var f := ParseTerm();
      if !f.Parsed? {
        return f;
      }
      var val := f.value;
      while currentToken == "+" || currentToken == "-"
        invariant Valid() && P.Rem(tokens, pos) <= P.Rem(tokens, old(pos))
        invariant P.ExprLoop(tokens, val, pos) == P.ParseExpression(tokens, old(pos))
        decreases P.Rem(tokens, pos)
      {
        var op := currentToken;
        ghost var here := pos;
        var _ := Eat(op);
        var g := ParseTerm();
        if !g.Parsed? {
          assert P.ExprLoop(tokens, val, here) == g;
          return g;
        }
        assert P.ExprLoop(tokens, val, here) == P.ExprLoop(tokens, BinOp(op, val, g.value), pos);
        val := BinOp(op, val, g.value);
      }
      return P.Parsed(val, pos);
    }

    method ParseCompOp() returns (r: P.PResult<string>)
      requires Valid()
      modifies this
      ensures Valid()
      ensures r == P.ParseCompOp(tokens, old(pos))
      ensures r.Parsed? ==> pos == r.next
    {
      var op := currentToken;
      if op == "=" || op == "<>" || op == "<" || op == ">" || op == "<=" {
        var _ := Eat(op);
        return P.Parsed(op, pos);
      }
      var err := Eat(">=");
      if err.Some? {
        return P.Failed(err.value);
      }
      return P.Parsed(">=", pos);
    }

    method ParseCondition() returns (r: P.PResult<Condition>)
      requires Valid()
      modifies this
      ensures Valid()
      ensures r == P.ParseCondition(tokens, old(pos))
      ensures r.Parsed? ==> pos == r.next
      decreases P.Rem(tokens, pos), 6
    {
      var l := ParseExpression();
      if !l.Parsed? {
        return if l.Failed? then P.Failed(l.error) else P.Diverges;
      }
      var op := ParseCompOp();
      if !op.Parsed? {
        return P.Failed(op.error);
      }
      var rhs := ParseExpression();
      if !rhs.Parsed? {
        return if rhs.Failed? then P.Failed(rhs.error) else P.Diverges;
      }
      return P.Parsed(Condition(op.value, l.value, rhs.value), pos);
    }

    /** `parseStatement`: dispatches on the current token. */
    method ParseStatement() returns (r: P.PResult<Stmt>)
      requires Valid()
      modifies this
      ensures Valid()
      ensures r == P.ParseStatement(tokens, old(pos))
      ensures r.Parsed? ==> pos == r.next
      decreases P.Rem(tokens, pos), 7
    {
      if currentToken == "WRITELN" {
        r := ParseWriteln();
      } else if currentToken == "BEGIN" {
        r := ParseBeginEnd();
      } else if currentToken == "IF" {
        r := ParseIfThen();
      } else if currentToken == "WHILE" {
        r := ParseWhileDo();
      } else {
        r := ParseAssignment();
      }
    }

    /** WRITELN ( expression ) ; */
    method ParseWriteln() returns (r: P.PResult<Stmt>)
      requires Valid() && currentToken == "WRITELN"
      modifies this
      ensures Valid()
      ensures r == P.ParseWriteln(tokens, old(pos))
      ensures r.Parsed? ==> pos == r.next
      decreases P.Rem(tokens, pos), 6
    {
      var _ := Eat("WRITELN");
      var err := Eat("(");
      if err.Some? {
        return P.Failed(err.value);
      }
      var e := ParseExpression();
      if !e.Parsed? {
        return if e.Failed? then P.Failed(e.error) else P.Diverges;
      }
      err := Eat(")");
      if err.Some? {
        return P.Failed(err.value);
      }
      err := Eat(";");
      if err.Some? {
        return P.Failed(err.value);
      }
      return P.Parsed(Writeln(e.value), pos);
    }

    /** BEGIN statements END ; */
    method ParseBeginEnd() returns (r: P.PResult<Stmt>)
      requires Valid() && currentToken == "BEGIN"
      modifies this
      ensures Valid()
      ensures r == P.ParseBeginEnd(tokens, old(pos))
      ensures r.Parsed? ==> pos == r.next
      decreases P.Rem(tokens, pos), 6
    {
      var _ := Eat("BEGIN");
      ghost var start := pos;
      var list: seq<Stmt> := [];
      while currentToken != "END"
        invariant Valid() && start <= pos
        invariant P.BlockLoop(tokens, pos, list) == P.BlockLoop(tokens, start, [])
        decreases P.Rem(tokens, pos)
      {
        var s := ParseStatement();
        if !s.Parsed? {
          return if s.Failed? then P.Failed(s.error) else P.Diverges;
        }
        list := list + [s.value];
      }
      var _ := Eat("END");
      var err := Eat(";");
      if err.Some? {
        return P.Failed(err.value);
      }
      return P.Parsed(Block(list), pos);
    }

    /** IF condition THEN statement */
    method ParseIfThen() returns (r: P.PResult<Stmt>)
      requires Valid() && currentToken == "IF"
      modifies this
      ensures Valid()
      ensures r == P.ParseIfThen(tokens, old(pos))
      ensures r.Parsed? ==> pos == r.next
      decreases P.Rem(tokens, pos), 6
    {
      var _ := Eat("IF");
      var cond := ParseCondition();
      if !cond.Parsed? {
        return if cond.Failed? then P.Failed(cond.error) else P.Diverges;
      }
      var err := Eat("THEN");
      if err.Some? {
        return P.Failed(err.value);
      }
      var s := ParseStatement();
      if !s.Parsed? {
        return s;
      }
      return P.Parsed(If(cond.value, s.value, None), pos);
    }

    /** WHILE condition DO statement */
    method ParseWhileDo() returns (r: P.PResult<Stmt>)
      requires Valid() && currentToken == "WHILE"
      modifies this
      ensures Valid()
      ensures r == P.ParseWhileDo(tokens, old(pos))
      ensures r.Parsed? ==> pos == r.next
      decreases P.Rem(tokens, pos), 6
    {
      var _ := Eat("WHILE");
      var cond := ParseCondition();
      if !cond.Parsed? {
        return if cond.Failed? then P.Failed(cond.error) else P.Diverges;
      }
      var err := Eat("DO");
      if err.Some? {
        return P.Failed(err.value);
      }
      var s := ParseStatement();
      if !s.Parsed? {
        return s;
      }
      return P.Parsed(While(cond.value, s.value), pos);
    }

    /** name := expression ; */
    method ParseAssignment() returns (r: P.PResult<Stmt>)
      requires Valid()
      modifies this
      ensures Valid()
      ensures r == P.ParseAssignment(tokens, old(pos))
      ensures r.Parsed? ==> pos == r.next
      decreases P.Rem(tokens, pos), 6
    {
      var curr := currentToken;
      var _ := Eat(curr);
      var err := Eat(":=");
      if err.Some? {
        return P.Failed(err.value);
      }
      var e := ParseExpression();
      if !e.Parsed? {
        return if e.Failed? then P.Failed(e.error) else P.Diverges;
      }
      err := Eat(";");
      if err.Some? {
        return P.Failed(err.value);
      }
      return P.Parsed(Assignment(curr, e.value), pos);
    }

    /** The name loop shared by VAR lists (closed by ";") and parameter lists (closed by ")"). */
    method ParseNames(close: string, init: seq<string>) returns (r: P.PResult<seq<string>>)
      requires Valid()
      modifies this
      ensures Valid()
      ensures r == P.ParseNames(tokens, old(pos), close, init)
      ensures r.Parsed? ==> pos == r.next
    {
      var names := init;
      while currentToken != close
        invariant Valid()
        invariant P.ParseNames(tokens, pos, close, names) == P.ParseNames(tokens, old(pos), close, init)
        decreases P.Rem(tokens, pos)
      {
        if pos >= |tokens| {
          return P.Diverges;
        }
        var name := currentToken;
        var _ := Eat(name);
        names := names + [name];
        if currentToken == "," {
          var _ := Eat(",");
        }
      }
      return P.Parsed(names, pos);
    }

    /** The VAR loop of `parseProgram`: all VAR sections, their names collected in one list. */
    method ParseVarSections() returns (r: P.PResult<seq<string>>)
      requires Valid()
      modifies this
      ensures Valid()
      ensures r == P.VarSections(tokens, old(pos), [])
      ensures r.Parsed? ==> pos == r.next
    {
      var vars: seq<string> := [];
      ghost var goal := P.VarSections(tokens, pos, []);
      while currentToken == "VAR"
        invariant Valid()
        invariant P.VarSections(tokens, pos, vars) == goal
        decreases P.Rem(tokens, pos)
      {
        var section := ParseVarSection(vars);
        if !section.Parsed? {
          return P.Diverges;
        }
        vars := section.value;
      }
      return P.Parsed(vars, pos);
    }

    /** One iteration of the VAR loop of `parseProgram`: VAR names ; */
    method ParseVarSection(vars: seq<string>) returns (r: P.PResult<seq<string>>)
      requires Valid() && currentToken == "VAR"
      modifies this
      ensures Valid()
      ensures r.Parsed? ==>
        pos == r.next && P.Rem(tokens, pos) < P.Rem(tokens, old(pos)) &&
        P.VarSections(tokens, old(pos), vars) == P.VarSections(tokens, pos, r.value)
      ensures !r.Parsed? ==> r == P.Diverges && P.VarSections(tokens, old(pos), vars) == P.Diverges
    {
      P.VarSectionsStep(tokens, pos, vars);
      var _ := Eat("VAR");
      var names := ParseNames(";", vars);
      if !names.Parsed? {
        return P.Diverges;
      }
      var _ := Eat(";");
      return P.Parsed(names.value, pos);
    }

    /** PROCEDURE name ( params ) ; */
    method ParseProcHead() returns (r: P.PResult<(string, seq<string>)>)
      requires Valid() && currentToken == "PROCEDURE"
      modifies this
      ensures Valid()
      ensures r == P.ParseProcHead(tokens, old(pos))
      ensures r.Parsed? ==> pos == r.next
    {
      var _ := Eat("PROCEDURE");
      var name := currentToken;
      var _ := Eat(name);
      var err := Eat("(");
      if err.Some? {
        return P.Failed(err.value);
      }
      var params := ParseNames(")", []);
      if !params.Parsed? {
        return P.Diverges;
      }
      var _ := Eat(")");
      err := Eat(";");
      if err.Some? {
        return P.Failed(err.value);
      }
      return P.Parsed((name, params.value), pos);
    }

    /** One iteration of the PROCEDURE loop of `parseProgram`. */
    method ParseProcDecl() returns (r: P.PResult<ProcDecl>)
      requires Valid() && currentToken == "PROCEDURE"
      modifies this
      ensures Valid()
      ensures r == P.ParseProcDecl(tokens, old(pos))
      ensures r.Parsed? ==> pos == r.next
    {
      var head := ParseProcHead();
      if !head.Parsed? {
        return if head.Failed? then P.Failed(head.error) else P.Diverges;
      }
      var body := ParseStatement();
      if !body.Parsed? {
        return if body.Failed? then P.Failed(body.error) else P.Diverges;
      }
      return P.Parsed(ProcDecl(head.value.0, body.value, head.value.1), pos);
    }

    /** The PROCEDURE loop of `parseProgram`. */
    method ParseProcDecls() returns (r: P.PResult<seq<ProcDecl>>)
      requires Valid()
      modifies this
      ensures Valid()
      ensures r == P.ProcDecls(tokens, old(pos), [])
      ensures r.Parsed? ==> pos == r.next
    {
      var pd: seq<ProcDecl> := [];
      while currentToken == "PROCEDURE"
        invariant Valid()
        invariant P.ProcDecls(tokens, pos, pd) == P.ProcDecls(tokens, old(pos), [])
        decreases P.Rem(tokens, pos)
      {
        var d := ParseProcDecl();
        if !d.Parsed? {
          return if d.Failed? then P.Failed(d.error) else P.Diverges;
        }
        pd := pd + [d.value];
      }
      return P.Parsed(pd, pos);
    }

    method ParseProgram() returns (r: P.PResult<Program>)
      requires Valid() && pos == 0
      modifies this
      ensures Valid()
      ensures r == P.ParseProgram(tokens)
      ensures r.Parsed? ==> pos == r.next
    {
      var vars := ParseVarSections();
      if !vars.Parsed? {
        return P.Diverges;
      }
      var pd := ParseProcDecls();
      if !pd.Parsed? {
        return if pd.Failed? then P.Failed(pd.error) else P.Diverges;
      }
      var stmt := ParseStatement();
      if !stmt.Parsed? {
        return if stmt.Failed? then P.Failed(stmt.error) else P.Diverges;
      }
      return P.Parsed(Program(vars.value, pd.value, stmt.value), pos);
    }
  }
}
