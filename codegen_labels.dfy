/**
 * The labels of the generated code. Each `if` and `while` defines two labels named after the
 * number `nextLabelID` hands it; as long as the counter does not wrap around, no two label
 * definitions in a program's file are the same, and the labels of a loop nested in a body carry
 * larger numbers than the enclosing statement's.
 *
 * Only codes ending in ':' are label definitions, and the code that loads a variable's address
 * ends with the variable's name. The parser takes any token as a name, so a program may use the
 * variable ":"; its address lines are then label lines and may repeat. `StmtPlain` picks the
 * trees whose names do not end in ':', and uniqueness is proved for those; the program
 * `: := :;` at the end of this module shows the others.
 */
module CodeGenLabels {
  import opened Options
  import opened JavaInt
  import opened Ast
  import opened Decimal
  import opened Emitting
  import opened CodeGen
  import opened CodeGenProperties
  import Scanning
  import Parsing

  // ---------------------------------------------------------------------------------------------
  // Label definitions among codes
  // ---------------------------------------------------------------------------------------------

  /** The label definitions among the codes, in order. */
  function Defined(codes: seq<string>): seq<string>
    decreases |codes|
  {
    if |codes| == 0 then []
    else Defined(codes[..|codes| - 1]) + (if IsLabel(codes[|codes| - 1]) then [codes[|codes| - 1]] else [])
  }

  /** A label occurs among the label definitions as often as among the codes; nothing else occurs. */
  lemma {:induction false} DefinedCounts(codes: seq<string>, l: string)
    ensures multiset(Defined(codes))[l] == if IsLabel(l) then multiset(codes)[l] else 0
    decreases |codes|
  {
    if |codes| > 0 {
      var init := codes[..|codes| - 1];
      assert codes == init + [codes[|codes| - 1]];
      DefinedCounts(init, l);
    }
  }

  /** Emitting on an open file adds the code to the definitions exactly when it is a label. */
  lemma EmitDefines(s: EmitterState, code: string)
    requires !s.closed
    ensures Defined(Emit(s, code).codes) == Defined(s.codes) + (if IsLabel(code) then [code] else [])
    ensures !Emit(s, code).closed && Emit(s, code).counter == s.counter
  {
    assert (s.codes + [code])[..|s.codes|] == s.codes;
  }

  /** Whether a joined string is a label is decided by its last non-empty part. */
  lemma LabelSuffix(a: string, b: string)
    ensures IsLabel(a + b) <==> if |b| > 0 then IsLabel(b) else IsLabel(a)
  {
    if |b| == 0 {
      assert a + b == a;
    } else {
      assert (a + b)[|a + b| - 1] == b[|b| - 1];
    }
  }

  /** A number is never a label: it ends in a digit. */
  lemma NumberNotLabel(i: int)
    ensures !IsLabel(IntToString(i))
  {
    var d := NatToString(if i >= 0 then i else -i);
    assert IsDigitChar(d[|d| - 1]);
    if i < 0 {
      LabelSuffix("-", d);
    }
  }

  /** A code that ends with a number is not a label. */
  lemma EndsWithNumber(a: string, i: int)
    ensures !IsLabel(a + IntToString(i))
  {
    NumberNotLabel(i);
    LabelSuffix(a, IntToString(i));
  }

  /** The label `<kind><id>:` is one. */
  lemma LabelIsLabel(a: string)
    ensures IsLabel(a + ":")
  {
    LabelSuffix(a, ":");
  }

  /** The variable names of the tree do not end in ':'. */
  predicate ExprPlain(e: Expr)
    decreases e
  {
    match e
    case Variable(x) => !IsLabel(x)
    case BinOp(_, l, r) => ExprPlain(l) && ExprPlain(r)
    case _ => true
  }

  predicate CondPlain(c: Condition) {
    ExprPlain(c.left) && ExprPlain(c.right)
  }

  predicate StmtPlain(st: Stmt)
    decreases st
  {
    match st
    case Assignment(x, e) => !IsLabel(x) && ExprPlain(e)
    case Writeln(e) => ExprPlain(e)
    case If(c, s1, s2) => CondPlain(c) && StmtPlain(s1) && (s2.Some? ==> StmtPlain(s2.value))
    case While(c, body) => CondPlain(c) && StmtPlain(body)
    case _ => true
  }

  /** The code that loads a variable's address is not a label. */
  lemma AddressNotLabel(x: string)
    requires !IsLabel(x)
    ensures !IsLabel("la $t1 var" + x)
  {
    LabelSuffix("la $t1 var", x);
  }

  /** Pushes and pops define no label and keep the file open. */
  lemma PushPopDefineNothing(s: EmitterState, reg: string)
    requires !s.closed
    ensures Defined(EmitPush(s, reg).codes) == Defined(s.codes) && !EmitPush(s, reg).closed
    ensures Defined(EmitPop(s, reg).codes) == Defined(s.codes) && !EmitPop(s, reg).closed
  {
    LabelSuffix("sw " + reg, " ($sp)");
    LabelSuffix("lw " + reg, " ($sp)");
    EmitDefines(s, PushCode);
    EmitDefines(Emit(s, PushCode), "sw " + reg + " ($sp)");
    EmitDefines(s, "lw " + reg + " ($sp)");
    EmitDefines(Emit(s, "lw " + reg + " ($sp)"), PopCode);
  }

  lemma ArithDefinesNothing(op: string, s: EmitterState)
    requires !s.closed
    ensures Defined(Arith(op, s).codes) == Defined(s.codes) && !Arith(op, s).closed
  {
    if op == "*" {
      EmitDefines(s, "mult $t0 $v0");
      EmitDefines(Emit(s, "mult $t0 $v0"), "mflo $v0");
    } else if op == "/" {
      EmitDefines(s, "div $t0 $v0");
      EmitDefines(Emit(s, "div $t0 $v0"), "mflo $v0");
    } else if op == "+" {
      EmitDefines(s, "addu $v0 $t0 $v0");
    } else if op == "-" {
      EmitDefines(s, "subu $v0 $t0 $v0");
    }
  }

  /** The code of an expression defines no label. */
  lemma {:induction false} ExprDefinesNothing(e: Expr, s: EmitterState)
    requires !s.closed && ExprPlain(e)
    ensures Defined(CompileExpr(e, s).state.codes) == Defined(s.codes) && !CompileExpr(e, s).state.closed
    decreases e
  {
    match e
    case Number(v) =>
      EndsWithNumber("li $v0 ", v);
      EmitDefines(s, "li $v0 " + IntToString(v));
    case Variable(x) =>
      AddressNotLabel(x);
      EmitDefines(s, "la $t1 var" + x);
      EmitDefines(Emit(s, "la $t1 var" + x), "lw $v0 ($t1)");
    case BinOp(op, l, r) =>
      var a := CompileExpr(l, s);
      ExprDefinesNothing(l, s);
      if a.ok {
        var pushed := EmitPush(a.state, "$v0");
        PushPopDefineNothing(a.state, "$v0");
        var b := CompileExpr(r, pushed);
        ExprDefinesNothing(r, pushed);
        if b.ok {
          PushPopDefineNothing(b.state, "$t0");
          ArithDefinesNothing(op, EmitPop(b.state, "$t0"));
        }
      }
    case Relation(_) =>
    case ProcedureCall(_, _) =>
  }

  /** Nor does the code of a condition whose branch target is not a label definition. */
  lemma CondDefinesNothing(c: Condition, target: string, s: EmitterState)
    requires !s.closed && CondPlain(c) && !IsLabel(target)
    ensures Defined(CompileCond(c, target, s).state.codes) == Defined(s.codes) && !CompileCond(c, target, s).state.closed
  {
    var a := CompileExpr(c.left, s);
    ExprDefinesNothing(c.left, s);
    if a.ok {
      var pushed := EmitPush(a.state, "$v0");
      PushPopDefineNothing(a.state, "$v0");
      var b := CompileExpr(c.right, pushed);
      ExprDefinesNothing(c.right, pushed);
      if b.ok {
        var t := EmitPop(b.state, "$t1");
        PushPopDefineNothing(b.state, "$t1");
        if Branch(c.op).Some? {
          var code := Branch(c.op).value + " $t1, $v0, " + target;
          LabelSuffix(Branch(c.op).value + " $t1, $v0, ", target);
          EmitDefines(t, code);
        }
      }
    }
  }

  // ---------------------------------------------------------------------------------------------
  // The labels a statement defines
  // ---------------------------------------------------------------------------------------------

  /** The kinds of label an `if` and a `while` define. */
  datatype LabelKind = ElseIfLabel | EndIfLabel | WhileLabel | EndWhileLabel

  /** The word a label of the kind starts with. */
  function Prefix(k: LabelKind): string {
    match k
    case ElseIfLabel => "elseif"
    case EndIfLabel => "endif"
    case WhileLabel => "while"
    case EndWhileLabel => "endwhile"
  }

  /** A label definition: its kind and its number. */
  datatype LabelDef = LabelDef(kind: LabelKind, id: nat)

  /** The code defining the label. */
  function Name(d: LabelDef): string {
    Prefix(d.kind) + NatToString(d.id) + ":"
  }

  function Names(ds: seq<LabelDef>): (r: seq<string>)
    ensures |r| == |ds| && forall i :: 0 <= i < |ds| ==> r[i] == Name(ds[i])
  {
    seq(|ds|, i requires 0 <= i < |ds| => Name(ds[i]))
  }

  lemma NamesAppend(a: seq<LabelDef>, b: seq<LabelDef>)
    ensures Names(a + b) == Names(a) + Names(b)
  {
    var l, r := Names(a + b), Names(a) + Names(b);
    forall i | 0 <= i < |a + b|
      ensures l[i] == r[i]
    {
      if i < |a| {
        assert (a + b)[i] == a[i];
      } else {
        assert (a + b)[i] == b[i - |a|];
      }
    }
    assert l == r;
  }

  lemma NamesSingleton(d: LabelDef)
    ensures Names([d]) == [Name(d)]
  {
  }

  /** The names of four pieces of labels in a row. */
  lemma NamesOf4(a: seq<LabelDef>, b: seq<LabelDef>, c: seq<LabelDef>, d: seq<LabelDef>)
    ensures Names(a + b + c + d) == Names(a) + Names(b) + Names(c) + Names(d)
  {
    NamesAppend(a, b);
    NamesAppend(a + b, c);
    NamesAppend(a + b + c, d);
  }

  /** A label's name as `If.compile` and `While.compile` spell it, with the number in decimal. */
  lemma NameSpelled(k: LabelKind, n: nat)
    ensures Names([LabelDef(k, n)]) == [Prefix(k) + IntToString(n) + ":"]
  {
    NamesSingleton(LabelDef(k, n));
  }

  /**
   * The labels a statement compiled with the counter at `c` defines, in order, when the counter
   * does not wrap: an `if` takes the next number and a `while` too, before their parts take theirs.
   */
  function StmtIds(st: Stmt, c: nat): seq<LabelDef>
    decreases st, 1
  {
    match st
    case If(_, s1, s2) => IfIds(StmtIds(s1, c + 1), ElseIds(s2, c + 1 + Labels(s1)), c + 1)
    case While(_, body) => WhileIds(StmtIds(body, c + 1), c + 1)
    case _ => []
  }

  /** The labels of the else-part of an `if`, if there is one. */
  function ElseIds(s2: Option<Stmt>, n: nat): seq<LabelDef>
    decreases s2, 0
  {
    if s2.Some? then StmtIds(s2.value, n) else []
  }

  /** An `if` numbered `n`: the then-part's labels, `elseif<n>:`, the else-part's, `endif<n>:`. */
  function IfIds(thn: seq<LabelDef>, els: seq<LabelDef>, n: nat): seq<LabelDef> {
    thn + [LabelDef(ElseIfLabel, n)] + els + [LabelDef(EndIfLabel, n)]
  }

  /** A `while` numbered `n`: `while<n>:`, the body's labels, `endwhile<n>:`. */
  function WhileIds(body: seq<LabelDef>, n: nat): seq<LabelDef> {
    [LabelDef(WhileLabel, n)] + body + [LabelDef(EndWhileLabel, n)]
  }

  /** The label codes a statement compiled with the counter at `c` emits, as `If.compile` and `While.compile` spell them. */
  function StmtDefs(st: Stmt, c: nat): seq<string>
    decreases st, 1
  {
    match st
    case If(_, s1, s2) => IfDefs(StmtDefs(s1, c + 1), ElseDefs(s2, c + 1 + Labels(s1)), c + 1)
    case While(_, body) => WhileDefs(StmtDefs(body, c + 1), c + 1)
    case _ => []
  }

  /** The label codes of the else-part of an `if`, if there is one. */
  function ElseDefs(s2: Option<Stmt>, n: nat): seq<string>
    decreases s2, 0
  {
    if s2.Some? then StmtDefs(s2.value, n) else []
  }

  /** An `if` numbered `n` around the label codes of its parts. */
  function IfDefs(thn: seq<string>, els: seq<string>, n: nat): seq<string> {
    thn + ["elseif" + IntToString(n) + ":"] + els + ["endif" + IntToString(n) + ":"]
  }

  /** A `while` numbered `n` around the label codes of its body. */
  function WhileDefs(body: seq<string>, n: nat): seq<string> {
    ["while" + IntToString(n) + ":"] + body + ["endwhile" + IntToString(n) + ":"]
  }

  /** Those codes are the names of the labels `StmtIds` lists. */
  lemma {:induction false} StmtDefsNames(st: Stmt, c: nat)
    ensures StmtDefs(st, c) == Names(StmtIds(st, c))
    decreases st, 2
  {
    match st
    case If(_, _, _) =>
      IfDefsNames(st, c);
    case While(cond, body) =>
      WhileDefsNames(cond, body, c);
    case Assignment(_, _) =>
    case Writeln(_) =>
    case Block(_) =>
    case Declaration(_) =>
  }

  lemma {:induction false} ElseDefsNames(s2: Option<Stmt>, n: nat)
    ensures ElseDefs(s2, n) == Names(ElseIds(s2, n))
    decreases s2, 3
  {
    if s2.Some? {
      StmtDefsNames(s2.value, n);
    }
  }

  lemma {:induction false} IfDefsNames(st: Stmt, c: nat)
    requires st.If?
    ensures StmtDefs(st, c) == Names(StmtIds(st, c))
    decreases st, 1
  {
    StmtDefsNames(st.thenBranch, c + 1);
    ElseDefsNames(st.elseBranch, c + 1 + Labels(st.thenBranch));
    IfNamesAt(st, c);
  }

  /** An `if`'s codes are the names of its labels when its parts' are. */
  lemma IfNamesAt(st: Stmt, c: nat)
    requires st.If? && StmtDefs(st.thenBranch, c + 1) == Names(StmtIds(st.thenBranch, c + 1))
    requires ElseDefs(st.elseBranch, c + 1 + Labels(st.thenBranch)) == Names(ElseIds(st.elseBranch, c + 1 + Labels(st.thenBranch)))
    ensures StmtDefs(st, c) == Names(StmtIds(st, c))
  {
    var s1, s2 := st.thenBranch, st.elseBranch;
    IfNames(StmtDefs(s1, c + 1), ElseDefs(s2, c + 1 + Labels(s1)), StmtIds(s1, c + 1), ElseIds(s2, c + 1 + Labels(s1)), c + 1);
    IfDefsAt(st, c);
    IfIdsAt(st, c);
  }

  lemma {:induction false} WhileDefsNames(cond: Condition, body: Stmt, c: nat)
    ensures StmtDefs(While(cond, body), c) == Names(StmtIds(While(cond, body), c))
    decreases While(cond, body), 1
  {
    StmtDefsNames(body, c + 1);
    WhileNames(StmtDefs(body, c + 1), StmtIds(body, c + 1), c + 1);
  }

  lemma IfDefsAt(st: Stmt, c0: nat)
    requires st.If?
    ensures StmtDefs(st, c0) == IfDefs(StmtDefs(st.thenBranch, c0 + 1), ElseDefs(st.elseBranch, c0 + 1 + Labels(st.thenBranch)), c0 + 1)
  {
  }

  lemma IfIdsAt(st: Stmt, c0: nat)
    requires st.If?
    ensures StmtIds(st, c0) == IfIds(StmtIds(st.thenBranch, c0 + 1), ElseIds(st.elseBranch, c0 + 1 + Labels(st.thenBranch)), c0 + 1)
  {
  }

  /** The codes of an `if` numbered `n` are the names of its labels when its parts' are. */
  lemma IfNames(a: seq<string>, e: seq<string>, pa: seq<LabelDef>, pe: seq<LabelDef>, n: nat)
    requires a == Names(pa) && e == Names(pe)
    ensures IfDefs(a, e, n) == Names(IfIds(pa, pe, n))
  {
    NamesOf4(pa, [LabelDef(ElseIfLabel, n)], pe, [LabelDef(EndIfLabel, n)]);
    NameSpelled(ElseIfLabel, n);
    NameSpelled(EndIfLabel, n);
  }

  /** The same for a `while`. */
  lemma WhileNames(b: seq<string>, pb: seq<LabelDef>, n: nat)
    requires b == Names(pb)
    ensures WhileDefs(b, n) == Names(WhileIds(pb, n))
  {
    NamesOf4([LabelDef(WhileLabel, n)], pb, [LabelDef(EndWhileLabel, n)], []);
    NameSpelled(WhileLabel, n);
    NameSpelled(EndWhileLabel, n);
    assert WhileIds(pb, n) == [LabelDef(WhileLabel, n)] + pb + [LabelDef(EndWhileLabel, n)] + [];
  }

  /** No element occurs twice. */
  predicate Distinct<T(==)>(xs: seq<T>) {
    forall i, j :: 0 <= i < j < |xs| ==> xs[i] != xs[j]
  }

  lemma DistinctConcat<T>(a: seq<T>, b: seq<T>)
    requires Distinct(a) && Distinct(b) && forall x :: x in a ==> x !in b
    ensures Distinct(a + b)
  {
    forall i, j | 0 <= i < j < |a + b| ensures (a + b)[i] != (a + b)[j] {
      if j < |a| {
        assert (a + b)[i] == a[i] && (a + b)[j] == a[j];
      } else if i >= |a| {
        assert (a + b)[i] == b[i - |a|] && (a + b)[j] == b[j - |a|];
      } else {
        assert (a + b)[i] == a[i] && a[i] in a;
        assert (a + b)[j] == b[j - |a|] && b[j - |a|] in b;
      }
    }
  }

  /** The labels all carry numbers in `lo + 1 .. hi`. */
  predicate InRange(ds: seq<LabelDef>, lo: int, hi: int) {
    forall d :: d in ds ==> lo < d.id <= hi
  }

  /** The labels of an `if` numbered `c + 1`: the then-part's, `elseif<n>:`, the else-part's, `endif<n>:`. */
  lemma IfIdsCombine(p1: seq<LabelDef>, p2: seq<LabelDef>, c: nat, l1: nat, l2: nat)
    requires InRange(p1, c + 1, c + 1 + l1) && Distinct(p1) && InRange(p2, c + 1 + l1, c + 1 + l1 + l2) && Distinct(p2)
    ensures InRange(IfIds(p1, p2, c + 1), c, c + (1 + (l1 + l2))) && Distinct(IfIds(p1, p2, c + 1))
  {
    var n := c + 1;
    var e := [LabelDef(ElseIfLabel, n)];
    var f := [LabelDef(EndIfLabel, n)];
    DistinctConcat(p1, e);
    assert InRange(p1 + e, n - 1, n + l1);
    DistinctConcat(p1 + e, p2);
    assert InRange(p1 + e + p2, n - 1, n + l1 + l2);
    assert forall x :: x in p1 + e + p2 ==> x.kind != EndIfLabel || x.id > n;
    DistinctConcat(p1 + e + p2, f);
  }

  /** The labels of a `while` numbered `c + 1`: `while<n>:`, the body's, `endwhile<n>:`. */
  lemma WhileIdsCombine(p: seq<LabelDef>, c: nat, l: nat)
    requires InRange(p, c + 1, c + 1 + l) && Distinct(p)
    ensures InRange(WhileIds(p, c + 1), c, c + (1 + l)) && Distinct(WhileIds(p, c + 1))
  {
    var n := c + 1;
    var w := [LabelDef(WhileLabel, n)];
    var f := [LabelDef(EndWhileLabel, n)];
    DistinctConcat(w, p);
    assert InRange(w + p, n - 1, n + l);
    assert forall x :: x in w + p ==> x.kind != EndWhileLabel || x.id > n;
    DistinctConcat(w + p, f);
  }

  /**
   * The labels of a statement carry numbers after `c` and no further than `c` plus the labels the
   * statement takes, and no label is defined twice.
   */
  lemma {:induction false} StmtIdsFacts(st: Stmt, c: nat)
    ensures InRange(StmtIds(st, c), c, c + Labels(st)) && Distinct(StmtIds(st, c))
    decreases st, 2
  {
    match st
    case If(_, _, _) =>
      IfIdsFacts(st, c);
    case While(cond, body) =>
      WhileIdsFacts(cond, body, c);
    case Assignment(_, _) =>
    case Writeln(_) =>
    case Block(_) =>
    case Declaration(_) =>
  }

  lemma {:induction false} ElseIdsFacts(s2: Option<Stmt>, n: nat)
    ensures InRange(ElseIds(s2, n), n, n + ElseLabels(s2)) && Distinct(ElseIds(s2, n))
    decreases s2, 3
  {
    if s2.Some? {
      StmtIdsFacts(s2.value, n);
    }
  }

  lemma {:induction false} IfIdsFacts(st: Stmt, c: nat)
    requires st.If?
    ensures InRange(StmtIds(st, c), c, c + Labels(st)) && Distinct(StmtIds(st, c))
    decreases st, 1
  {
    var s1, s2 := st.thenBranch, st.elseBranch;
    StmtIdsFacts(s1, c + 1);
    ElseIdsFacts(s2, c + 1 + Labels(s1));
    IfIdsAt(st, c);
    LabelsAt(st);
    IfIdsCombine(StmtIds(s1, c + 1), ElseIds(s2, c + 1 + Labels(s1)), c, Labels(s1), ElseLabels(s2));
  }

  lemma LabelsAt(st: Stmt)
    requires st.If?
    ensures Labels(st) == 1 + (Labels(st.thenBranch) + ElseLabels(st.elseBranch))
  {
  }

  lemma {:induction false} WhileIdsFacts(cond: Condition, body: Stmt, c: nat)
    ensures var st := While(cond, body);
      InRange(StmtIds(st, c), c, c + Labels(st)) && Distinct(StmtIds(st, c))
    decreases While(cond, body), 1
  {
    StmtIdsFacts(body, c + 1);
    WhileIdsCombine(StmtIds(body, c + 1), c, Labels(body));
  }

  /**
   * A loop defines `while<n>:` first, with the number it took; every label of a loop nested in
   * its body (or of any statement there) carries a larger number.
   */
  lemma NestedLabelsLater(cond: Condition, body: Stmt, c: nat)
    ensures StmtIds(While(cond, body), c)[0] == LabelDef(WhileLabel, c + 1)
    ensures forall d :: d in StmtIds(body, c + 1) ==> d.id > c + 1
  {
    StmtIdsFacts(body, c + 1);
  }

  /** A label's name is its kind's word, which has no digit, then its number, then ':'. */
  lemma NameParts(d: LabelDef)
    ensures |Name(d)| > |Prefix(d.kind)| && IsDigitChar(Name(d)[|Prefix(d.kind)|])
    ensures forall i :: 0 <= i < |Prefix(d.kind)| ==> !IsDigitChar(Name(d)[i])
    ensures Name(d)[..|Prefix(d.kind)|] == Prefix(d.kind)
    ensures Name(d)[|Prefix(d.kind)|..|Name(d)| - 1] == NatToString(d.id)
  {
    assert Name(d)[|Prefix(d.kind)|] == NatToString(d.id)[0];
  }

  /** Different label definitions have different names. */
  lemma NameInjective(d1: LabelDef, d2: LabelDef)
    requires Name(d1) == Name(d2)
    ensures d1 == d2
  {
    NameParts(d1);
    NameParts(d2);
    assert |Prefix(d1.kind)| == |Prefix(d2.kind)|;
    assert Prefix(d1.kind) == Prefix(d2.kind);
    assert d1.kind == d2.kind;
    NatToStringInjective(d1.id, d2.id);
  }

  lemma NamesDistinct(ds: seq<LabelDef>)
    requires Distinct(ds)
    ensures Distinct(Names(ds))
  {
    forall i, j | 0 <= i < j < |ds| ensures Names(ds)[i] != Names(ds)[j] {
      if Name(ds[i]) == Name(ds[j]) {
        NameInjective(ds[i], ds[j]);
      }
    }
  }

  // ---------------------------------------------------------------------------------------------
  // The generated code defines exactly those labels
  // ---------------------------------------------------------------------------------------------

  /** Without wrap-around, handing out `k` labels adds `k` to the counter. */
  lemma {:induction false} AdvanceNoWrap(c: Int32, k: nat)
    requires c + k <= MAX
    ensures Advance(c, k) == c + k
    decreases k
  {
    if k > 0 {
      AdvanceNoWrap(Add(c, 1), k - 1);
    }
  }

  /** The label definitions a statement emits are those `StmtDefs` lists, in that order. */
  lemma {:induction false} StmtDefines(st: Stmt, s: EmitterState)
    requires !s.closed && StmtPlain(st) && 0 <= s.counter && s.counter + Labels(st) <= MAX
    ensures var g := CompileStmt(st, s);
      g.ok ==> Defined(g.state.codes) == Defined(s.codes) + StmtDefs(st, s.counter)
    decreases st, 5
  {
    match st
    case Assignment(x, e) =>
      AssignmentDefinesNothing(x, e, s);
    case Writeln(e) =>
      WritelnDefinesNothing(e, s);
    case If(_, _, _) =>
      IfDefines(st, s);
    case While(c, body) =>
      WhileDefines(c, body, s);
    case Block(_) =>
    case Declaration(_) =>
  }

  lemma {:induction false} IfDefines(st: Stmt, s: EmitterState)
    requires st.If? && !s.closed && StmtPlain(st) && 0 <= s.counter && s.counter + Labels(st) <= MAX
    ensures var g := CompileIf(st.cond, st.thenBranch, st.elseBranch, s);
      g.ok ==> Defined(g.state.codes) == Defined(s.codes) + StmtDefs(st, s.counter)
    decreases st, 4
  {
    var n := NextLabel(s);
    assert n.counter == s.counter + 1;
    IfCodeDefines(st, IntToString(n.counter), n, s.counter);
  }

  lemma {:induction false} WhileDefines(c: Condition, body: Stmt, s: EmitterState)
    requires !s.closed && StmtPlain(While(c, body)) && 0 <= s.counter && s.counter + Labels(While(c, body)) <= MAX
    ensures var g := CompileWhile(c, body, s);
      g.ok ==> Defined(g.state.codes) == Defined(s.codes) + StmtDefs(While(c, body), s.counter)
    decreases While(c, body), 4
  {
    var n := NextLabel(s);
    assert n.counter == s.counter + 1;
    WhileCodeDefines(c, body, IntToString(n.counter), n, s.counter);
  }

  /** An assignment defines no label. */
  lemma AssignmentDefinesNothing(x: string, e: Expr, s: EmitterState)
    requires !s.closed && !IsLabel(x) && ExprPlain(e)
    ensures Defined(CompileAssignment(x, e, s).state.codes) == Defined(s.codes)
  {
    var a := CompileExpr(e, s);
    ExprDefinesNothing(e, s);
    if a.ok {
      AddressNotLabel(x);
      EmitDefines(a.state, "la $t1 var" + x);
      EmitDefines(Emit(a.state, "la $t1 var" + x), "sw $v0, ($t1)");
    }
  }

  /** Nor does a `writeln`. */
  lemma WritelnDefinesNothing(e: Expr, s: EmitterState)
    requires !s.closed && ExprPlain(e)
    ensures Defined(CompileWriteln(e, s).state.codes) == Defined(s.codes)
  {
    var a := CompileExpr(e, s);
    ExprDefinesNothing(e, s);
    if a.ok {
      var t1 := Emit(a.state, "move $a0 $v0");
      var t2 := Emit(t1, "li $v0 1");
      var t3 := Emit(t2, "syscall");
      var t4 := Emit(t3, "la $a0, nL");
      var t5 := Emit(t4, "li $v0, 4");
      EmitDefines(a.state, "move $a0 $v0");
      EmitDefines(t1, "li $v0 1");
      EmitDefines(t2, "syscall");
      EmitDefines(t3, "la $a0, nL");
      EmitDefines(t4, "li $v0, 4");
      EmitDefines(t5, "syscall");
    }
  }

  lemma {:induction false} IfCodeDefines(st: Stmt, id: string, s: EmitterState, c0: nat)
    requires st.If? && !s.closed && StmtPlain(st) && s.counter == c0 + 1 && c0 + Labels(st) <= MAX
    requires id == IntToString(s.counter)
    ensures var g := IfCode(st.cond, st.thenBranch, st.elseBranch, id, s);
      g.ok ==> Defined(g.state.codes) == Defined(s.codes) + StmtDefs(st, c0)
    decreases st, 3
  {
    var c, s1, s2 := st.cond, st.thenBranch, st.elseBranch;
    var g := IfCode(c, s1, s2, id, s);
    if g.ok {
      var k: nat := s.counter;
      var D := Defined(s.codes);
      var le := "elseif" + id + ":";
      var a := CompileCond(c, "elseif" + id, s);
      var b := CompileStmt(s1, a.state);
      var t := Emit(Emit(b.state, "j endif" + id), le);
      IfCodeShape(c, s1, s2, id, s);
      IfThenDefines(st, id, s);
      assert a.ok && b.ok;
      IfBounds(st, c0, k);
      IfRestDefines(st, id, t, c0, D);
    }
  }

  /** The else-part of an `if` and its `endif` label, after the then-part left the emitter at `t`. */
  lemma IfRestDefines(st: Stmt, id: string, t: EmitterState, c0: nat, d: seq<string>)
    requires st.If? && !t.closed && t.counter == c0 + 1 + Labels(st.thenBranch) && id == IntToString(c0 + 1)
    requires Defined(t.codes) == d + StmtDefs(st.thenBranch, c0 + 1) + ["elseif" + id + ":"]
    requires st.elseBranch.Some? ==>
      StmtPlain(st.elseBranch.value) && c0 + 1 + Labels(st.thenBranch) + Labels(st.elseBranch.value) <= MAX
    ensures var e := ElseGen(st.elseBranch, t);
      e.ok ==> Defined(Emit(e.state, "endif" + id + ":").codes) == d + StmtDefs(st, c0)
    decreases st, 1
  {
    var s1, s2 := st.thenBranch, st.elseBranch;
    var e := ElseGen(s2, t);
    var lf := "endif" + id + ":";
    IfElseDefines(st, "endif" + id, lf, t, c0 + 1 + Labels(s1), d + StmtDefs(s1, c0 + 1) + ["elseif" + id + ":"]);
    if e.ok {
      IfCombine(st, c0, d, "elseif" + id + ":", lf, Defined(Emit(e.state, lf).codes));
    }
  }

  /** What the parts of a plain `if` inherit from it: plainness and room for their labels. */
  lemma IfBounds(st: Stmt, c0: nat, k: nat)
    requires st.If? && StmtPlain(st) && c0 + Labels(st) <= MAX && k == c0 + 1
    ensures st.elseBranch.Some? ==>
      StmtPlain(st.elseBranch.value) && k + Labels(st.thenBranch) + Labels(st.elseBranch.value) <= MAX
  {
  }

  /** The condition and the then-part of an `if`, then its jump and its `elseif` label. */
  lemma {:induction false} IfThenDefines(st: Stmt, id: string, s: EmitterState)
    requires st.If? && !s.closed && StmtPlain(st) && 1 <= s.counter && s.counter - 1 + Labels(st) <= MAX
    requires id == IntToString(s.counter)
    ensures var a := CompileCond(st.cond, "elseif" + id, s);
      var b := CompileStmt(st.thenBranch, a.state);
      var t := Emit(Emit(b.state, "j endif" + id), "elseif" + id + ":");
      a.ok && b.ok ==>
        !t.closed && t.counter == s.counter + Labels(st.thenBranch) &&
        Defined(t.codes) == Defined(s.codes) + StmtDefs(st.thenBranch, s.counter) + ["elseif" + id + ":"]
    decreases st, 1
  {
    var a := CompileCond(st.cond, "elseif" + id, s);
    if a.ok {
      EndsWithNumber("elseif", s.counter);
      CondDefinesNothing(st.cond, "elseif" + id, s);
      CondAppends(st.cond, "elseif" + id, s);
      ThenDefines(st, id, a.state, s.counter, Defined(s.codes));
    }
  }

  /** The then-part of an `if` from `u`, where its condition left the emitter, then the jump and the label. */
  lemma {:induction false} ThenDefines(st: Stmt, id: string, u: EmitterState, k: nat, before: seq<string>)
    requires st.If? && StmtPlain(st) && 1 <= k && k - 1 + Labels(st) <= MAX && id == IntToString(k)
    requires !u.closed && u.counter == k && Defined(u.codes) == before
    ensures var b := CompileStmt(st.thenBranch, u);
      var t := Emit(Emit(b.state, "j endif" + id), "elseif" + id + ":");
      b.ok ==>
        !t.closed && t.counter == k + Labels(st.thenBranch) &&
        Defined(t.codes) == before + StmtDefs(st.thenBranch, k) + ["elseif" + id + ":"]
    decreases st, 0
  {
    var s1 := st.thenBranch;
    var b := CompileStmt(s1, u);
    if b.ok {
      StmtDefines(s1, u);
      StmtAppends(s1, u);
      StmtAdvances(s1, u);
      AdvanceNoWrap(k, Labels(s1));
      assert !b.state.closed && b.state.counter == k + Labels(s1) && Defined(b.state.codes) == before + StmtDefs(s1, k);
      JumpThenLabel(b.state, "j endif", k, "elseif");
    }
  }

  /** A jump, which ends with a number and is no label, then a label: only the label is defined. */
  lemma JumpThenLabel(b: EmitterState, jump: string, n: int, target: string)
    requires !b.closed
    ensures var t := Emit(Emit(b, jump + IntToString(n)), target + IntToString(n) + ":");
      !t.closed && t.counter == b.counter && Defined(t.codes) == Defined(b.codes) + [target + IntToString(n) + ":"]
  {
    EndsWithNumber(jump, n);
    LabelIsLabel(target + IntToString(n));
    EmitDefines(b, jump + IntToString(n));
    EmitDefines(Emit(b, jump + IntToString(n)), target + IntToString(n) + ":");
  }

  /** The labels of an `if`, regrouped as `StmtDefs` lists them. */
  lemma IfCombine(st: Stmt, c0: nat, d: seq<string>, le: string, lf: string, all: seq<string>)
    requires st.If? && le == "elseif" + IntToString(c0 + 1) + ":" && lf == "endif" + IntToString(c0 + 1) + ":"
    requires all == d + StmtDefs(st.thenBranch, c0 + 1) + [le] + ElseDefs(st.elseBranch, c0 + 1 + Labels(st.thenBranch)) + [lf]
    ensures all == d + StmtDefs(st, c0)
  {
    IfDefsAt(st, c0);
    IfRegroup(d, StmtDefs(st.thenBranch, c0 + 1), ElseDefs(st.elseBranch, c0 + 1 + Labels(st.thenBranch)), c0 + 1, le, lf, all);
  }

  lemma IfRegroup(d: seq<string>, a: seq<string>, e: seq<string>, n: nat, le: string, lf: string, all: seq<string>)
    requires le == "elseif" + IntToString(n) + ":" && lf == "endif" + IntToString(n) + ":"
    requires all == d + a + [le] + e + [lf]
    ensures all == d + IfDefs(a, e, n)
  {
  }

  /** The else-part of an `if`, if any, then its `endif` label. */
  lemma {:induction false} IfElseDefines(st: Stmt, name: string, lf: string, t: EmitterState, m: nat, before: seq<string>)
    requires st.If? && !t.closed && t.counter == m && lf == name + ":" && Defined(t.codes) == before
    requires st.elseBranch.Some? ==> StmtPlain(st.elseBranch.value) && m + Labels(st.elseBranch.value) <= MAX
    ensures var d := ElseGen(st.elseBranch, t);
      d.ok ==> Defined(Emit(d.state, lf).codes) == before + ElseDefs(st.elseBranch, m) + [lf]
    decreases st, 0
  {
    var s2 := st.elseBranch;
    LabelIsLabel(name);
    if s2.Some? {
      var d := CompileStmt(s2.value, t);
      StmtDefines(s2.value, t);
      StmtAppends(s2.value, t);
      if d.ok {
        EmitDefines(d.state, lf);
      }
    } else {
      EmitDefines(t, lf);
    }
  }

  lemma {:induction false} WhileCodeDefines(c: Condition, body: Stmt, id: string, s: EmitterState, c0: nat)
    requires !s.closed && CondPlain(c) && StmtPlain(body) && s.counter == c0 + 1 && s.counter + Labels(body) <= MAX
    requires id == IntToString(s.counter)
    ensures var g := WhileCode(c, body, id, s);
      g.ok ==> Defined(g.state.codes) == Defined(s.codes) + StmtDefs(While(c, body), c0)
    decreases While(c, body), 1
  {
    var g := WhileCode(c, body, id, s);
    if g.ok {
      var D := Defined(s.codes);
      var lw := "while" + id + ":";
      var a := CompileCond(c, "endwhile" + id, Emit(s, lw));
      WhileCodeShape(c, body, id, s);
      WhileTestDefines(c, id, s);
      WhileBodyDefines(c, body, id, a.state, s.counter, D + [lw]);
      WhileCombine(c, body, c0, id, D, Defined(g.state.codes));
    }
  }

  /** The labels of a `while`, regrouped as `StmtDefs` lists them. */
  lemma WhileCombine(c: Condition, body: Stmt, c0: nat, id: string, d: seq<string>, all: seq<string>)
    requires id == IntToString(c0 + 1)
    requires all == d + ["while" + id + ":"] + StmtDefs(body, c0 + 1) + ["endwhile" + id + ":"]
    ensures all == d + StmtDefs(While(c, body), c0)
  {
    WhileRegroup(d, StmtDefs(body, c0 + 1), c0 + 1, id, all);
  }

  lemma WhileRegroup(d: seq<string>, b: seq<string>, n: nat, id: string, all: seq<string>)
    requires id == IntToString(n)
    requires all == d + ["while" + id + ":"] + b + ["endwhile" + id + ":"]
    ensures all == d + WhileDefs(b, n)
  {
  }

  /** The `while` label of a loop, then its test: only the label is defined. */
  lemma WhileTestDefines(c: Condition, id: string, s: EmitterState)
    requires !s.closed && CondPlain(c) && id == IntToString(s.counter)
    ensures var a := CompileCond(c, "endwhile" + id, Emit(s, "while" + id + ":"));
      a.ok ==> !a.state.closed && a.state.counter == s.counter && Defined(a.state.codes) == Defined(s.codes) + ["while" + id + ":"]
  {
    var w := Emit(s, "while" + id + ":");
    LabelIsLabel("while" + id);
    EmitDefines(s, "while" + id + ":");
    EndsWithNumber("endwhile", s.counter);
    CondDefinesNothing(c, "endwhile" + id, w);
    CondAppends(c, "endwhile" + id, w);
  }

  /** The body of a `while` from `u`, where its test left the emitter, then the jump back and the exit label. */
  lemma {:induction false} WhileBodyDefines(c: Condition, body: Stmt, id: string, u: EmitterState, k: nat, before: seq<string>)
    requires StmtPlain(body) && k + Labels(body) <= MAX && id == IntToString(k)
    requires !u.closed && u.counter == k && Defined(u.codes) == before
    ensures var b := CompileStmt(body, u);
      b.ok ==>
        Defined(Emit(Emit(b.state, "j while" + id), "endwhile" + id + ":").codes) == before + StmtDefs(body, k) + ["endwhile" + id + ":"]
    decreases While(c, body), 0
  {
    var b := CompileStmt(body, u);
    if b.ok {
      StmtDefines(body, u);
      StmtAppends(body, u);
      assert !b.state.closed && Defined(b.state.codes) == before + StmtDefs(body, k);
      JumpThenLabel(b.state, "j while", k, "endwhile");
    }
  }

  // ---------------------------------------------------------------------------------------------
  // Programs
  // ---------------------------------------------------------------------------------------------

  lemma {:induction false} DeclareVarsDefinesNothing(vars: seq<string>, s: EmitterState)
    requires !s.closed
    ensures Defined(DeclareVars(vars, s).codes) == Defined(s.codes) && !DeclareVars(vars, s).closed
    decreases |vars|
  {
    if |vars| > 0 {
      LabelSuffix("var" + vars[0] + ":\t .word \t", " 0");
      EmitDefines(s, VarLine(vars[0]));
      DeclareVarsDefinesNothing(vars[1..], Emit(s, VarLine(vars[0])));
    }
  }

  /** The prologue defines no label: `main: ` ends in a space. */
  lemma PrologueDefinesNothing(vars: seq<string>, s: EmitterState)
    requires !s.closed
    ensures Defined(Prologue(vars, s).codes) == Defined(s.codes)
  {
    var h := Emit(Emit(s, ".data"), "nL:    .asciiz    \"\\n\"");
    EmitDefines(s, ".data");
    EmitDefines(Emit(s, ".data"), "nL:    .asciiz    \"\\n\"");
    DeclareVarsDefinesNothing(vars, h);
    var v := DeclareVars(vars, h);
    EmitDefines(v, ".text");
    EmitDefines(Emit(v, ".text"), ".globl main");
    EmitDefines(Emit(Emit(v, ".text"), ".globl main"), "main: ");
  }

  /** A list without repeats holds each value at most once. */
  lemma {:induction false} DistinctCount<T>(xs: seq<T>, x: T)
    requires Distinct(xs)
    ensures multiset(xs)[x] <= 1
    decreases |xs|
  {
    if |xs| > 0 {
      assert xs == [xs[0]] + xs[1..];
      assert Distinct(xs[1..]) by {
        forall i, j | 0 <= i < j < |xs[1..]| ensures xs[1..][i] != xs[1..][j] {
          assert xs[1..][i] == xs[i + 1] && xs[1..][j] == xs[j + 1];
        }
      }
      DistinctCount(xs[1..], x);
      if xs[0] == x {
        assert x !in xs[1..] by {
          forall i | 0 <= i < |xs[1..]| ensures xs[1..][i] != x {
            assert xs[1..][i] == xs[i + 1];
          }
        }
      }
    }
  }

  /**
   * In the file of a program that compiles from a fresh emitter, with fewer `if`s and `while`s
   * than the counter has room for, the label lines are exactly those `StmtIds` lists for the
   * main statement from 0, and no label line occurs twice.
   */
  lemma ProgramLabelsUnique(p: Program)
    requires CompileProgram(p, Opened()).ok && StmtPlain(p.main) && Labels(p.main) <= MAX
    ensures Defined(CompileProgram(p, Opened()).state.codes) == Names(StmtIds(p.main, 0))
    ensures var f := Text(CompileProgram(p, Opened()).state.codes);
      forall l :: IsLabel(l) ==> multiset(f)[l] <= 1
  {
    var pro := Prologue(p.vars, Opened());
    PrologueDefinesNothing(p.vars, Opened());
    PrologueLayout(p.vars, Opened());
    var m := CompileStmt(p.main, pro);
    assert m.ok;
    StmtDefines(p.main, pro);
    StmtAppends(p.main, pro);
    EmitDefines(m.state, "li $v0 10");
    EmitDefines(Emit(m.state, "li $v0 10"), "syscall");
    var r := CompileProgram(p, Opened()).state.codes;
    assert r == Emit(Emit(m.state, "li $v0 10"), "syscall").codes;
    StmtDefsNames(p.main, 0);
    assert Defined(r) == Names(StmtIds(p.main, 0));
    StmtIdsFacts(p.main, 0);
    NamesDistinct(StmtIds(p.main, 0));
    forall l | IsLabel(l) ensures multiset(Text(r))[l] <= 1 {
      TextCounts(r, l);
      DefinedCounts(r, l);
      DistinctCount(Defined(r), l);
    }
  }

  // ---------------------------------------------------------------------------------------------
  // A variable named ":"
  // ---------------------------------------------------------------------------------------------

  /** The text `: := :;.`, with the scanner's state at index `pos`. */
  function ColonState(pos: nat, current: char, eof: bool): Scanning.ScanState {
    Scanning.ScanState(": := :;.", pos, current, eof)
  }

  /** The program that text parses to: the variable ":" assigned to itself. */
  function ColonProgram(): Program {
    Program([], [], Assignment(":", Variable(":")))
  }

  /** The codes of the prologue of a program without VAR names. */
  function PlainPrologue(): seq<string> {
    [".data", "nL:    .asciiz    \"\\n\"", ".text", ".globl main", "main: "]
  }

  lemma ColonLexFirst()
    ensures Scanning.Start(": := :;.") == ColonState(1, ':', false)
    ensures Scanning.Lex(ColonState(1, ':', false)) == Scanning.Ok((":", ColonState(2, ' ', false)))
    ensures Scanning.Lex(ColonState(2, ' ', false)) == Scanning.Ok((":=", ColonState(5, ' ', false)))
  {
    assert [':'] != "<" && [':'] == ":" && [':'] + ['='] == ":=";
    assert Scanning.SkipSpaces(ColonState(2, ' ', false)) == ColonState(3, ':', false);
  }

  lemma ColonLexLast()
    ensures Scanning.Lex(ColonState(5, ' ', false)) == Scanning.Ok((":", ColonState(7, ';', false)))
    ensures Scanning.Lex(ColonState(7, ';', false)) == Scanning.Ok((";", ColonState(8, '.', false)))
    ensures Scanning.Lex(ColonState(8, '.', false)) == Scanning.Ok(("EOF", ColonState(8, '.', true)))
  {
    assert [':'] != "<" && [':'] == ":" && [';'] != "<" && [';'] == ";";
    assert Scanning.SkipSpaces(ColonState(5, ' ', false)) == ColonState(6, ':', false);
  }

  /** The scanner reads `: := :;.` as ":", ":=", ":", ";" and the end. */
  lemma ColonNameScans()
    ensures Scanning.Tokenize(": := :;.") == Scanning.Ok([":", ":=", ":", ";", "EOF"])
  {
    ColonLexFirst();
    ColonLexLast();
    Scanning.TokensOfLast(ColonState(8, '.', false));
    Scanning.TokensOfNext(ColonState(7, ';', false), ["EOF"]);
    assert [";"] + ["EOF"] == [";", "EOF"];
    Scanning.TokensOfNext(ColonState(5, ' ', false), [";", "EOF"]);
    assert [":"] + [";", "EOF"] == [":", ";", "EOF"];
    Scanning.TokensOfNext(ColonState(2, ' ', false), [":", ";", "EOF"]);
    assert [":="] + [":", ";", "EOF"] == [":=", ":", ";", "EOF"];
    Scanning.TokensOfNext(ColonState(1, ':', false), [":=", ":", ";", "EOF"]);
    assert [":"] + [":=", ":", ";", "EOF"] == [":", ":=", ":", ";", "EOF"];
  }

  /** The parser reads that stream as the assignment of ":" to itself: ":" is a name to it. */
  lemma ColonNameParses()
    ensures Parsing.ParseProgram([":", ":=", ":", ";", "EOF"]) == Parsing.Parsed(ColonProgram(), 4)
  {
    var t := [":", ":=", ":", ";", "EOF"];
    assert ParseInt(":") == None;
    assert Parsing.ParseFactor(t, 2) == Parsing.Parsed(Variable(":"), 3);
    assert Parsing.ParseTerm(t, 2) == Parsing.Parsed(Variable(":"), 3);
    assert Parsing.ParseExpression(t, 2) == Parsing.Parsed(Variable(":"), 3);
  }

  /** The codes of `: := :;`, and the file is then closed. */
  function ColonCodes(): seq<string> {
    PlainPrologue() + ["la $t1 var:", "lw $v0 ($t1)", "la $t1 var:", "sw $v0, ($t1)", "li $v0 10", "syscall"]
  }

  lemma ColonProgramCode()
    ensures CompileProgram(ColonProgram(), Opened()) == Gen(EmitterState(ColonCodes(), 0, true), true)
  {
    var s0 := EmitterState(PlainPrologue(), 0, false);
    assert Prologue([], Opened()) == s0;
    assert "la $t1 var" + ":" == "la $t1 var:";
    assert CompileExpr(Variable(":"), s0) ==
      Gen(EmitterState(PlainPrologue() + ["la $t1 var:", "lw $v0 ($t1)"], 0, false), true);
    assert CompileStmt(ColonProgram().main, s0) ==
      Gen(EmitterState(PlainPrologue() + ["la $t1 var:", "lw $v0 ($t1)", "la $t1 var:", "sw $v0, ($t1)"], 0, false), true);
  }

  lemma ColonCodesCount()
    ensures multiset(Text(ColonCodes()))["la $t1 var:"] == 2
  {
    var tail := ["la $t1 var:", "lw $v0 ($t1)", "la $t1 var:", "sw $v0, ($t1)", "li $v0 10", "syscall"];
    TextCounts(ColonCodes(), "la $t1 var:");
    assert multiset(ColonCodes()) == multiset(PlainPrologue()) + multiset(tail);
  }

  /**
   * The program compiles, within the counter's range, and its file holds the label line
   * "la $t1 var:" twice: without `StmtPlain`, `ProgramLabelsUnique` does not hold.
   */
  lemma ColonNameRepeatsLabel()
    ensures var p := ColonProgram();
      && CompileProgram(p, Opened()).ok && !StmtPlain(p.main) && Labels(p.main) <= MAX
      && IsLabel("la $t1 var:")
      && multiset(Text(CompileProgram(p, Opened()).state.codes))["la $t1 var:"] == 2
  {
    ColonProgramCode();
    ColonCodesCount();
  }
}
