/**
 * The emitter writes MIPS assembly, one line per `emit`, to a file it opens when created. Lines
 * that are labels (they end in ':') are written as they are; every other line is indented by a
 * tab. The emitter also hands out label numbers from a counter that starts at 0.
 *
 * `EmitterState` is what the emitter has done: the codes passed to `emit` that reached the file,
 * in order, the counter (a Java `int`) and whether the file is closed. The file's text is
 * `Text(codes)`, one line per code. The file is opened with automatic flushing, so a line is in
 * the file as soon as it is emitted; once the file is closed, further lines are lost.
 */
module Emitting {
  import opened JavaInt

  datatype EmitterState = EmitterState(codes: seq<string>, counter: Int32, closed: bool)

  /** `new Emitter(fileName)`: an empty file and a counter at 0. */
  function Opened(): (r: EmitterState)
    ensures Text(r.codes) == [] && !r.closed && r.counter == 0
  {
    EmitterState([], 0, false)
  }

  /** A label definition ends in ':'. */
  predicate IsLabel(code: string) {
    |code| > 0 && code[|code| - 1] == ':'
  }

  /** The line `emit(code)` writes. */
  function Line(code: string): (r: string)
    ensures IsLabel(r) == IsLabel(code)
    ensures |code| <= |r| <= |code| + 1 && r[|r| - |code|..] == code
  {
    if IsLabel(code) then code else "\t" + code
  }

  /** The file's lines: one per emitted code. */
  function Text(codes: seq<string>): (lines: seq<string>)
    ensures |lines| == |codes|
    decreases |codes|
  {
    if |codes| == 0 then [] else Text(codes[..|codes| - 1]) + [Line(codes[|codes| - 1])]
  }

  /** `emit(code)`. */
  function Emit(s: EmitterState, code: string): EmitterState {
    if s.closed then s else s.(codes := s.codes + [code])
  }

  /** `emitPush(reg)`: make room on the stack, then store the register there. */
  function EmitPush(s: EmitterState, reg: string): EmitterState {
    Emit(Emit(s, "subu $sp $sp 4"), "sw " + reg + " ($sp)")
  }

  /** `emitPop(reg)`: load the top of the stack into the register, then release it. */
  function EmitPop(s: EmitterState, reg: string): EmitterState {
    Emit(Emit(s, "lw " + reg + " ($sp)"), "addu $sp $sp 4")
  }

  /** `nextLabelID()`: the counter after the increment is the label handed out. */
  function NextLabel(s: EmitterState): EmitterState {
    s.(counter := Add(s.counter, 1))
  }

  /** `close()`. */
  function Close(s: EmitterState): (r: EmitterState)
    ensures r.closed && r.codes == s.codes && r.counter == s.counter
    ensures forall code :: Emit(r, code) == r
  {
    s.(closed := true)
  }

  /** The instruction stack pushes start with, and the one pops end with. */
  const PushCode: string := "subu $sp $sp 4"
  const PopCode: string := "addu $sp $sp 4"

  // ---------------------------------------------------------------------------------------------
  // Properties
  // ---------------------------------------------------------------------------------------------

  /**
   * A line holds its code unchanged at its end; labels are written flush left and every other
   * line, the empty one included, starts with a tab.
   */
  lemma LineLayout(code: string)
    ensures IsLabel(code) ==> Line(code) == code
    ensures !IsLabel(code) ==> Line(code) == "\t" + code && Line(code)[0] == '\t'
    ensures |Line(code)| >= |code| && Line(code)[|Line(code)| - |code|..] == code
    ensures IsLabel(Line(code)) <==> IsLabel(code)
  {
    if !IsLabel(code) {
      assert ("\t" + code)[1..] == code;
    }
  }

  /** Different codes give different lines, so the file determines what was emitted. */
  lemma LineInjective(a: string, b: string)
    requires Line(a) == Line(b)
    ensures a == b
  {
    LineLayout(a);
    LineLayout(b);
    if !IsLabel(a) {
      assert a == Line(a)[1..] == Line(b)[1..] == b;
    }
  }

  /** Line `i` of the file is the line of the `i`-th code. */
  lemma {:induction false} TextLines(codes: seq<string>, i: int)
    requires 0 <= i < |codes|
    ensures Text(codes)[i] == Line(codes[i])
    decreases |codes|
  {
    if i < |codes| - 1 {
      TextLines(codes[..|codes| - 1], i);
    }
  }

  /** Emitting more codes only adds lines at the end of the file. */
  lemma {:induction false} TextPrefix(a: seq<string>, b: seq<string>)
    requires a <= b
    ensures Text(a) <= Text(b)
    decreases |b|
  {
    if |a| < |b| {
      var init := b[..|b| - 1];
      assert a <= init;
      TextPrefix(a, init);
      assert Text(b)[..|init|] == Text(init);
      assert Text(a) == Text(init)[..|a|] == Text(b)[..|a|];
    } else {
      assert a == b;
    }
  }

  /** The file holds as many copies of a code's line as codes equal to it were emitted. */
  lemma {:induction false} TextCounts(codes: seq<string>, code: string)
    ensures multiset(Text(codes))[Line(code)] == multiset(codes)[code]
    decreases |codes|
  {
    if |codes| > 0 {
      var init := codes[..|codes| - 1];
      var last := codes[|codes| - 1];
      assert codes == init + [last];
      TextCounts(init, code);
      if Line(last) == Line(code) {
        LineInjective(last, code);
      }
    }
  }

  /** Each `emit` on an open file adds exactly one line at the end and touches nothing else. */
  lemma EmitAppendsOneLine(s: EmitterState, code: string)
    ensures var r := Emit(s, code);
      r.counter == s.counter && r.closed == s.closed &&
      Text(r.codes) == if s.closed then Text(s.codes) else Text(s.codes) + [Line(code)]
  {
    if !s.closed {
      assert (s.codes + [code])[..|s.codes|] == s.codes;
    }
  }

  /** A push and a pop are two instructions each, exactly these, written with a tab. */
  lemma PushPopLines(s: EmitterState, reg: string)
    requires !s.closed
    ensures EmitPush(s, reg).codes == s.codes + [PushCode, "sw " + reg + " ($sp)"]
    ensures EmitPop(s, reg).codes == s.codes + ["lw " + reg + " ($sp)", PopCode]
    ensures EmitPush(s, reg).counter == EmitPop(s, reg).counter == s.counter
    ensures Line(PushCode) == "\tsubu $sp $sp 4" && Line(PopCode) == "\taddu $sp $sp 4"
    ensures Line("sw " + reg + " ($sp)") == "\t" + "sw " + reg + " ($sp)"
    ensures Line("lw " + reg + " ($sp)") == "\t" + "lw " + reg + " ($sp)"
  {
    PushPopText();
    assert !IsLabel("sw " + reg + " ($sp)") && !IsLabel("lw " + reg + " ($sp)");
    Regroup("\t", "sw ", reg, " ($sp)");
    Regroup("\t", "lw ", reg, " ($sp)");
  }

  /** The file lines of the two stack instructions. */
  lemma PushPopText()
    ensures Line(PushCode) == "\tsubu $sp $sp 4" && Line(PopCode) == "\taddu $sp $sp 4"
  {
    assert !IsLabel(PushCode) && !IsLabel(PopCode);
  }

  /** Concatenation regrouped, so that a line built as `t + (a + r + b)` reads as its four parts in a row. */
  lemma Regroup(t: string, a: string, r: string, b: string)
    ensures t + (a + r + b) == t + a + r + b
  {
  }

  /**
   * Labels are handed out from 1, each one more than the one before, with Java's wrap-around
   * after the largest `int`; handing one out writes nothing.
   */
  lemma NextLabelCounts(s: EmitterState)
    ensures NextLabel(Opened()).counter == 1
    ensures s.counter < MAX ==> NextLabel(s).counter == s.counter + 1 > s.counter
    ensures s.counter == MAX ==> NextLabel(s).counter == MIN
    ensures NextLabel(s).codes == s.codes && NextLabel(s).closed == s.closed
  {
  }

  /** After `close`, nothing more reaches the file. */
  lemma ClosedWritesNothing(s: EmitterState, code: string, reg: string)
    ensures Emit(Close(s), code).codes == s.codes
    ensures EmitPush(Close(s), reg).codes == s.codes && EmitPop(Close(s), reg).codes == s.codes
  {
  }
}

/**
 * The `Emitter` object. Its `lines` field is the file's text; the ghost `codes` field records
 * what was emitted, so that each method can be proved to act as the function of the same name
 * in `Emitting` does.
 */
module EmitterObject {
  import opened JavaInt
  import S = Emitting

  class Emitter {
    var lines: seq<string>
    ghost var codes: seq<string>
    var counter: Int32
    var closed: bool
    /** The name of the file the lines go to. */
    const fileName: string

    /** The file holds exactly the lines of the emitted codes. */
    ghost predicate Valid()
      reads this
    {
      lines == S.Text(codes)
    }

    ghost function State(): S.EmitterState
      reads this
    {
      S.EmitterState(codes, counter, closed)
    }

    /** Opens (creates or empties) the file. */
    constructor (outputFileName: string)
      ensures Valid() && State() == S.Opened() && fileName == outputFileName
    {
      lines := [];
      codes := [];
      counter := 0;
      closed := false;
      fileName := outputFileName;
    }

    method Emit(code: string)
      requires Valid()
      modifies this
      ensures Valid() && State() == S.Emit(old(State()), code)
    {
      var line := code;
      if !S.IsLabel(code) {
        line := "\t" + code;
      }
      if !closed {
        S.EmitAppendsOneLine(State(), code);
        lines := lines + [line];
        codes := codes + [code];
      }
    }

    method Close()
      modifies this
      ensures State() == S.Close(old(State())) && lines == old(lines)
    {
      closed := true;
    }

    method EmitPush(reg: string)
      requires Valid()
      modifies this
      ensures Valid() && State() == S.EmitPush(old(State()), reg)
    {
      Emit("subu $sp $sp 4");
      Emit("sw " + reg + " ($sp)");
    }

    method EmitPop(reg: string)
      requires Valid()
      modifies this
      ensures Valid() && State() == S.EmitPop(old(State()), reg)
    {
      Emit("lw " + reg + " ($sp)");
      Emit("addu $sp $sp 4");
    }

    method NextLabelID() returns (id: Int32)
      modifies this
      ensures State() == S.NextLabel(old(State())) && lines == old(lines) && id == State().counter
    {
      counter := Add(counter, 1);
      id := counter;
    }
  }
}
