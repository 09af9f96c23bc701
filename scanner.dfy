/**
 * The lexical scanner: one character of lookahead (`currentChar`), an end-of-input flag (`eof`),
 * and `NextToken`, which returns the next token as a string and "EOF" once the input is exhausted
 * or a '.' has been read.
 *
 * The reader is modelled as the input text plus the index of the next unread character. The
 * functions below describe the scanner on a `ScanState` value; the class `Scanner` keeps the same
 * state in fields and its methods are proved to follow those functions.
 */
module Scanning {

  // ---------------------------------------------------------------------------------------------
  // Character classes
  // ---------------------------------------------------------------------------------------------

  predicate IsDigit(c: char) {
    '0' <= c <= '9'
  }

  predicate IsLetter(c: char) {
    ('a' <= c <= 'z') || ('A' <= c <= 'Z')
  }

  predicate IsWhiteSpace(c: char) {
    c == ' ' || c == '\t' || c == '\r' || c == '\n'
  }

  /** The thirteen operator and punctuation characters. */
  predicate IsOperand(c: char) {
    c == '=' || c == '+' || c == '-' || c == '*' || c == '/' || c == '%' || c == '(' || c == ')'
    || c == ';' || c == ':' || c == '<' || c == '>' || c == ','
  }

  /**
   * The four classes share no character, and '.' is in none: so `nextToken`'s tests, in whatever
   * order, pick one kind of token for each character, and '.' falls through to its own case.
   */
  lemma CharClassesDisjoint(c: char)
    ensures IsDigit(c) ==> !IsLetter(c) && !IsWhiteSpace(c) && !IsOperand(c)
    ensures IsLetter(c) ==> !IsWhiteSpace(c) && !IsOperand(c)
    ensures IsWhiteSpace(c) ==> !IsOperand(c)
    ensures c == '.' ==> !IsDigit(c) && !IsLetter(c) && !IsWhiteSpace(c) && !IsOperand(c)
  {
  }

  /** The two kinds of maximal runs the scanner collects. */
  datatype CharClass = Digits | Letters

  predicate InClass(c: char, cls: CharClass) {
    match cls
    case Digits => IsDigit(c)
    case Letters => IsLetter(c)
  }

  predicate AllIn(s: string, cls: CharClass) {
    forall i :: 0 <= i < |s| ==> InClass(s[i], cls)
  }

  /** A one- or two-character operator token: an operator alone, one followed by '=', or "<>". */
  predicate IsOperatorToken(t: string) {
    && 1 <= |t| <= 2
    && IsOperand(t[0])
    && (|t| == 2 ==> t[1] == '=' || t == "<>")
  }

  datatype ScanError =
    | UnrecognizedCharacter(found: char)
    | IllegalCharacter(expected: char, found: char)

  datatype Result<T> = Ok(value: T) | Err(error: ScanError)

  // ---------------------------------------------------------------------------------------------
  // The scanner as functions of its state
  // ---------------------------------------------------------------------------------------------

  /** The scanner's fields: the text, the next index to read, `currentChar` and `eof`. */
  datatype ScanState = ScanState(input: seq<char>, pos: nat, current: char, eof: bool)

  /**
   * The states the scanner can be in: the reader never runs past the text, and while input
   * remains `current` is the character read last.
   */
  predicate Valid(st: ScanState) {
    && st.pos <= |st.input|
    && (!st.eof ==> 0 < st.pos && st.current == st.input[st.pos - 1])
  }

  /** The index of the character under the lookahead, or the length of the text at the end. */
  function Cursor(st: ScanState): (k: nat)
    requires Valid(st)
    ensures k <= |st.input|
  {
    if st.eof then |st.input| else st.pos - 1
  }

  /** What is left to read, for termination: unread characters count twice, a pending end once. */
  function Measure(st: ScanState): nat {
    2 * (if st.pos <= |st.input| then |st.input| - st.pos else 0) + (if st.eof then 0 else 1)
  }

  /** `getNextChar`: read one character, or raise `eof` and leave `currentChar` as it was. */
  function Step(st: ScanState): (r: ScanState)
    ensures r.input == st.input
    ensures Valid(st) ==> Valid(r)
    ensures !st.eof ==> Measure(r) < Measure(st)
  {
    if st.pos < |st.input| then st.(current := st.input[st.pos], pos := st.pos + 1)
    else st.(eof := true)
  }

  /** The state a freshly constructed scanner is in: `eof` false, then one `getNextChar`. */
  function Start(input: seq<char>): (r: ScanState)
    ensures Valid(r) && r.input == input
  {
    Step(ScanState(input, 0, 0 as char, false))
  }

  /** `removeWhiteSpace`: step while the lookahead is white space and input remains. */
  function SkipSpaces(st: ScanState): (r: ScanState)
    ensures r.input == st.input
    ensures Valid(st) ==> Valid(r)
    ensures Measure(r) <= Measure(st)
    decreases Measure(st)
  {
    if IsWhiteSpace(st.current) && !st.eof then SkipSpaces(Step(st)) else st
  }

  /**
   * `scanNumber` and `scanIdentifier`: append the lookahead to `lex` while it is of class `cls`,
   * stopping as soon as the end of input is reached.
   */
  function ScanRun(st: ScanState, cls: CharClass, lex: string): (r: (string, ScanState))
    ensures r.1.input == st.input
    ensures Valid(st) ==> Valid(r.1)
    ensures Measure(r.1) <= Measure(st)
    ensures !st.eof && InClass(st.current, cls) ==> Measure(r.1) < Measure(st)
    decreases Measure(st)
  {
    if InClass(st.current, cls) then
      var next := Step(st);
      var lex' := lex + [st.current];
      if next.eof then (lex', next) else ScanRun(next, cls, lex')
    else (lex, st)
  }

  /** `eat(currentChar)` guarded by `hasNext()`, as `scanOperand` does before each advance. */
  function StepIfMore(st: ScanState): (r: ScanState)
    ensures r.input == st.input
    ensures Valid(st) ==> Valid(r)
    ensures Measure(r) <= Measure(st)
  {
    if !st.eof then Step(st) else st
  }

  /**
   * `scanOperand`: take the operator, then take the next character too when it is '=' or when
   * the pair is "<>". At the end of input the lookahead still holds the operator itself.
   */
  function ScanOperator(st: ScanState): (r: (string, ScanState))
    ensures r.1.input == st.input
    ensures Valid(st) ==> Valid(r.1)
    ensures Measure(r.1) <= Measure(st)
    ensures !st.eof && IsOperand(st.current) ==> Measure(r.1) < Measure(st)
  {
    if IsOperand(st.current) && st.eof then ([st.current], st)
    else
      var lex := if IsOperand(st.current) then [st.current] else [];
      var st1 := if IsOperand(st.current) then Step(st) else st;
      if lex == "<" && st1.current == '>' then (lex + [st1.current], StepIfMore(st1))
      else if st1.current == '=' then (lex + [st1.current], StepIfMore(st1))
      else (lex, st1)
  }

  /** `nextToken`: skip white space, then dispatch on the class of the lookahead. */
  function Lex(st: ScanState): (r: Result<(string, ScanState)>)
    ensures r.Ok? ==> r.value.1.input == st.input
    ensures r.Ok? && Valid(st) ==> Valid(r.value.1)
    ensures r.Ok? && !st.eof ==> Measure(r.value.1) < Measure(st)
  {
    var st1 := SkipSpaces(st);
    if st1.eof then Ok(("EOF", st1))
    else if IsDigit(st1.current) then Ok(ScanRun(st1, Digits, ""))
    else if IsLetter(st1.current) then Ok(ScanRun(st1, Letters, ""))
    else if IsOperand(st1.current) then Ok(ScanOperator(st1))
    else if st1.current == '.' then Ok(("EOF", st1.(eof := true)))
    else Err(UnrecognizedCharacter(st1.current))
  }

  /**
   * The whole token stream of a text, up to and including the token after which `eof` is set;
   * every later `nextToken` answers "EOF", so a reader that answers "EOF" past the end of this
   * list sees exactly the scanner's stream.
   */
  function Tokens(st: ScanState): (r: Result<seq<string>>)
    ensures r.Ok? ==> |r.value| >= 1
    decreases Measure(st)
  {
    match Lex(st)
    case Err(e) => Err(e)
    case Ok((t, next)) =>
      if next.eof || st.eof then Ok([t])
      else
        match Tokens(next)
        case Err(e) => Err(e)
        case Ok(rest) => Ok([t] + rest)
  }

  /** The stream of a whole text: at least one token, each "EOF" or well formed. */
  function Tokenize(input: seq<char>): (r: Result<seq<string>>)
    ensures r.Ok? ==> |r.value| >= 1 && forall i :: 0 <= i < |r.value| ==> IsToken(r.value[i])
  {
    TokensWellFormed(Start(input));
    Tokens(Start(input))
  }

  /** "EOF", or a non-empty run of digits, a run of letters, or an operator token. */
  predicate IsToken(t: string) {
    t == "EOF" || (|t| >= 1 && (AllIn(t, Digits) || AllIn(t, Letters) || IsOperatorToken(t)))
  }

  /** The stream from a state whose token is the last one: that token alone. */
  lemma TokensOfLast(st: ScanState)
    requires Lex(st).Ok? && Lex(st).value.1.eof
    ensures Tokens(st) == Ok([Lex(st).value.0])
  {
  }

  /** The stream from a state whose token is not the last: that token, then the next state's. */
  lemma TokensOfNext(st: ScanState, rest: seq<string>)
    requires !st.eof && Lex(st).Ok? && !Lex(st).value.1.eof
    requires Tokens(Lex(st).value.1) == Ok(rest)
    ensures Tokens(st) == Ok([Lex(st).value.0] + rest)
  {
  }

  // ---------------------------------------------------------------------------------------------
  // Properties of the scanner
  // ---------------------------------------------------------------------------------------------

  /** White space before a token is skipped: only white space lies between the two cursors. */
  lemma {:induction false} SkipSpacesSkipsWhiteSpace(st: ScanState)
    requires Valid(st)
    ensures var r := SkipSpaces(st);
      && Cursor(st) <= Cursor(r)
      && (forall i :: Cursor(st) <= i < Cursor(r) ==> IsWhiteSpace(st.input[i]))
      && (r.eof || !IsWhiteSpace(r.current))
      && (st.eof ==> r == st)
      && (!st.eof ==> r.eof == st.eof || r.pos == |r.input|)
    decreases Measure(st)
  {
    if IsWhiteSpace(st.current) && !st.eof {
      var next := Step(st);
      SkipSpacesSkipsWhiteSpace(next);
      assert st.input[Cursor(st)] == st.current;
    }
  }

  /** A run scan collects exactly the characters from the cursor to where it stops, all of its class. */
  lemma {:induction false} ScanRunCollects(st: ScanState, cls: CharClass, lex: string)
    requires Valid(st) && !st.eof
    ensures var r := ScanRun(st, cls, lex);
      && Cursor(st) <= Cursor(r.1)
      && r.0 == lex + st.input[Cursor(st)..Cursor(r.1)]
      && AllIn(st.input[Cursor(st)..Cursor(r.1)], cls)
    decreases Measure(st)
  {
    if InClass(st.current, cls) {
      var next := Step(st);
      var lex' := lex + [st.current];
      StepAdvancesCursor(st);
      if !next.eof {
        assert ScanRun(st, cls, lex) == ScanRun(next, cls, lex');
        ScanRunCollects(next, cls, lex');
        var j := Cursor(ScanRun(next, cls, lex').1);
        ConsSlice(st.input, Cursor(st), j, cls);
      } else {
        assert ScanRun(st, cls, lex) == (lex', next);
        ConsSlice(st.input, Cursor(st), Cursor(next), cls);
      }
    }
  }

  /** One step moves the cursor past the lookahead, which is the character at the cursor. */
  lemma StepAdvancesCursor(st: ScanState)
    requires Valid(st) && !st.eof
    ensures st.current == st.input[Cursor(st)]
    ensures Cursor(Step(st)) == Cursor(st) + 1
  {
  }

  /** Splitting the first character off a slice. */
  lemma ConsSlice(s: seq<char>, k: nat, j: nat, cls: CharClass)
    requires k < j <= |s|
    ensures s[k..j] == [s[k]] + s[k + 1..j]
    ensures AllIn(s[k..j], cls) <==> InClass(s[k], cls) && AllIn(s[k + 1..j], cls)
  {
    assert s[k..j] == [s[k]] + s[k + 1..j];
    if InClass(s[k], cls) && AllIn(s[k + 1..j], cls) {
      forall i | 0 <= i < j - k
        ensures InClass(s[k..j][i], cls)
      {
        if i > 0 {
          assert s[k..j][i] == s[k + 1..j][i - 1];
        }
      }
    }
  }

  /** A run scan stops only at the end of the text or before a character outside the class. */
  lemma {:induction false} ScanRunIsMaximal(st: ScanState, cls: CharClass, lex: string)
    requires Valid(st) && !st.eof
    ensures var r := ScanRun(st, cls, lex).1;
      && (Cursor(r) == |st.input| || (!r.eof && !InClass(st.input[Cursor(r)], cls)))
      && (r.eof ==> r.pos == |r.input|)
    decreases Measure(st)
  {
    if InClass(st.current, cls) {
      var next := Step(st);
      var lex' := lex + [st.current];
      if !next.eof {
        assert ScanRun(st, cls, lex) == ScanRun(next, cls, lex');
        ScanRunIsMaximal(next, cls, lex');
      } else {
        assert ScanRun(st, cls, lex) == (lex', next);
      }
    }
  }

  /** Once `eof` is set, every call answers "EOF" and changes nothing. */
  lemma EndIsSticky(st: ScanState)
    requires st.eof
    ensures Lex(st) == Ok(("EOF", st))
  {
  }

  /** A '.' ends the token stream: it answers "EOF" and sets `eof`, so all later calls do too. */
  lemma DotEndsInput(st: ScanState)
    requires !SkipSpaces(st).eof && SkipSpaces(st).current == '.'
    ensures Lex(st).Ok? && Lex(st).value.0 == "EOF" && Lex(st).value.1.eof
    ensures Lex(Lex(st).value.1) == Ok(("EOF", Lex(st).value.1))
  {
  }

  /** A scan error happens exactly when the first character after white space belongs to no class. */
  lemma ErrorExactlyOnUnknownCharacter(st: ScanState)
    ensures Lex(st).Err? <==>
      var st1 := SkipSpaces(st);
      !st1.eof && !IsDigit(st1.current) && !IsLetter(st1.current) && !IsOperand(st1.current)
      && st1.current != '.'
  {
  }

  /** A digit starts a token that is the maximal run of digits from there. */
  lemma {:induction false} DigitTokenIsMaximalRun(st: ScanState)
    requires Valid(st)
    requires var st1 := SkipSpaces(st); !st1.eof && IsDigit(st1.current)
    ensures Lex(st).Ok?
    ensures var st1 := SkipSpaces(st); var (t, r) := Lex(st).value;
      && t == st.input[Cursor(st1)..Cursor(r)] && |t| >= 1 && AllIn(t, Digits)
      && (forall i :: Cursor(st) <= i < Cursor(st1) ==> IsWhiteSpace(st.input[i]))
      && (Cursor(r) == |st.input| || !IsDigit(st.input[Cursor(r)]))
  {
    var st1 := SkipSpaces(st);
    SkipSpacesSkipsWhiteSpace(st);
    ScanRunCollects(st1, Digits, "");
    ScanRunIsMaximal(st1, Digits, "");
    ScanRunConsumesFirst(st1, Digits);
  }

  /** A letter starts a token that is the maximal run of letters from there. */
  lemma {:induction false} LetterTokenIsMaximalRun(st: ScanState)
    requires Valid(st)
    requires var st1 := SkipSpaces(st); !st1.eof && IsLetter(st1.current)
    ensures Lex(st).Ok?
    ensures var st1 := SkipSpaces(st); var (t, r) := Lex(st).value;
      && t == st.input[Cursor(st1)..Cursor(r)] && |t| >= 1 && AllIn(t, Letters)
      && (forall i :: Cursor(st) <= i < Cursor(st1) ==> IsWhiteSpace(st.input[i]))
      && (Cursor(r) == |st.input| || !IsLetter(st.input[Cursor(r)]))
  {
    var st1 := SkipSpaces(st);
    SkipSpacesSkipsWhiteSpace(st);
    ScanRunConsumesFirst(st1, Letters);
    ScanRunCollects(st1, Letters, "");
    ScanRunIsMaximal(st1, Letters, "");
    assert !IsDigit(st1.current);
  }

  /** A run scan that starts on a character of its class consumes it. */
  lemma ScanRunConsumesFirst(st: ScanState, cls: CharClass)
    requires Valid(st) && !st.eof && InClass(st.current, cls)
    ensures Cursor(st) < Cursor(ScanRun(st, cls, "").1)
  {
    if !Step(st).eof {
      ScanRunCollects(Step(st), cls, [st.current]);
    }
  }

  /**
   * The operator token that starts at index `k` of the text, read off the text itself: the
   * operator alone, unless the next character is '=' (then the pair, for any operator) or the
   * pair is "<>". When the operator is the last character the lookahead still holds it, so a final
   * '=' is paired with itself.
   */
  function OperatorAt(s: seq<char>, k: nat): (t: string)
    requires k < |s|
    ensures IsOperand(s[k]) ==> IsOperatorToken(t)
    ensures 1 <= |t| <= 2 && t[0] == s[k]
  {
    var c := s[k];
    if k + 1 == |s| then (if c == '=' then "==" else [c])
    else if c == '<' && s[k + 1] == '>' then "<>"
    else if s[k + 1] == '=' then [c, '=']
    else [c]
  }

  /** An operator character after white space starts the token `OperatorAt` names. */
  lemma OperatorToken(st: ScanState)
    requires Valid(st)
    requires var st1 := SkipSpaces(st); !st1.eof && IsOperand(st1.current)
    ensures Lex(st).Ok?
    ensures Lex(st).value.0 == OperatorAt(st.input, Cursor(SkipSpaces(st)))
  {
    var st1 := SkipSpaces(st);
    assert !IsDigit(st1.current) && !IsLetter(st1.current);
    assert Lex(st) == Ok(ScanOperator(st1));
    ScanOperatorTakes(st1);
  }

  /** `OperatorToken` for a state whose lookahead is the operator. */
  lemma ScanOperatorTakes(st: ScanState)
    requires Valid(st) && !st.eof && IsOperand(st.current)
    ensures ScanOperator(st).0 == OperatorAt(st.input, Cursor(st))
  {
    var c := st.current;
    var st1 := Step(st);
    assert [c] == "<" <==> c == '<';
    if st.pos < |st.input| {
      assert st1.current == st.input[Cursor(st) + 1];
    } else {
      assert st1.current == c;
    }
  }

  /** Every token is "EOF" or a non-empty run of digits, a run of letters, or an operator token. */
  lemma {:induction false} TokensAreWellFormed(st: ScanState)
    requires Valid(st)
    requires Lex(st).Ok?
    ensures var t := Lex(st).value.0;
      t == "EOF" || (|t| >= 1 && (AllIn(t, Digits) || AllIn(t, Letters) || IsOperatorToken(t)))
  {
    var st1 := SkipSpaces(st);
    SkipSpacesSkipsWhiteSpace(st);
    if !st1.eof {
      if IsDigit(st1.current) {
        DigitTokenIsMaximalRun(st);
      } else if IsLetter(st1.current) {
        LetterTokenIsMaximalRun(st);
      } else if IsOperand(st1.current) {
        OperatorToken(st);
      }
    }
  }

  /** No token contains white space: each consists of digits, letters, operators, or is "EOF". */
  lemma TokensHoldNoWhiteSpace(st: ScanState)
    requires Valid(st)
    requires Lex(st).Ok?
    ensures forall i :: 0 <= i < |Lex(st).value.0| ==> !IsWhiteSpace(Lex(st).value.0[i])
  {
    TokensAreWellFormed(st);
  }

  /** Every token of a stream is well formed. */
  lemma {:induction false} TokensWellFormed(st: ScanState)
    requires Valid(st)
    ensures Tokens(st).Ok? ==> forall i :: 0 <= i < |Tokens(st).value| ==> IsToken(Tokens(st).value[i])
    decreases Measure(st)
  {
    if Lex(st).Ok? {
      TokensAreWellFormed(st);
      var next := Lex(st).value.1;
      if !(next.eof || st.eof) {
        TokensWellFormed(next);
      }
    }
  }

  /** A text of white space followed by '.' has "EOF" as its first and only token. */
  lemma {:induction false} WhiteSpaceThenDot(w: seq<char>)
    requires forall i :: 0 <= i < |w| ==> IsWhiteSpace(w[i])
    ensures Tokenize(w + ['.']) == Ok(["EOF"])
  {
    var st := Start(w + ['.']);
    SkipSpacesSkipsWhiteSpace(st);
    assert (w + ['.'])[|w|] == '.';
    assert forall i :: 0 <= i < |w| ==> (w + ['.'])[i] == w[i];
  }

  /** A text of white space only has "EOF" as its first token, and from then on nothing else. */
  lemma {:induction false} WhiteSpaceOnly(w: seq<char>)
    requires forall i :: 0 <= i < |w| ==> IsWhiteSpace(w[i])
    ensures Tokenize(w) == Ok(["EOF"])
    ensures Lex(Start(w)).Ok? && Lex(Start(w)).value.1.eof
  {
    var st := Start(w);
    SkipSpacesSkipsWhiteSpace(st);
    var st1 := SkipSpaces(st);
  }

  /**
   * The trap at the end of input: a lone '=' that is the text's last character, not taken as the
   * second character of the operator before it, yields "==" (`OperatorAt` gives the general rule).
   */
  lemma FinalEqualsPairsWithItself()
    ensures Lex(Start("=")) == Ok(("==", ScanState("=", 1, '=', true)))
  {
    var st := Start("=");
    assert st == ScanState("=", 1, '=', false);
    assert SkipSpaces(st) == st;
    var st1 := Step(st);
    assert st1 == ScanState("=", 1, '=', true);
    assert ['='] != "<";
    assert ['='] + ['='] == "==";
    assert ScanOperator(st) == ("==", ScanState("=", 1, '=', true));
  }

  /** Scenario: ":=" is one token, not two, and reading it reaches the end of the text. */
  lemma AssignOperatorIsOneToken()
    ensures Tokenize(":=") == Ok([":="])
    ensures Lex(Lex(Start(":=")).value.1) == Ok(("EOF", ScanState(":=", 2, '=', true)))
  {
    var st := Start(":=");
    assert st == ScanState(":=", 1, ':', false);
    var st2 := ScanState(":=", 2, '=', true);
    assert SkipSpaces(st) == st;
    assert Step(st) == ScanState(":=", 2, '=', false);
    assert [':'] != "<";
    assert [':'] + ['='] == ":=";
    assert ScanOperator(st) == (":=", st2);
    assert Lex(st) == Ok((":=", st2));
    assert Lex(st2) == Ok(("EOF", st2));
  }

  // ---------------------------------------------------------------------------------------------
  // The scanner object
  // ---------------------------------------------------------------------------------------------

  class Scanner {
    const input: seq<char>
    var pos: nat
    var currentChar: char
    var eof: bool

    /** The fields as a `ScanState`. */
    function State(): ScanState
      reads this
    {
      ScanState(input, pos, currentChar, eof)
    }

    /** `Scanner(String)`: clears `eof` and reads the first character. */
    constructor(inString: seq<char>)
      ensures State() == Start(inString)
    {
      input := inString;
      pos := 0;
      currentChar := 0 as char;
      eof := false;
      new;
      GetNextChar();
    }

    method GetNextChar()
      modifies this
      ensures State() == Step(old(State()))
    {
      if pos < |input| {
        currentChar := input[pos];
        pos := pos + 1;
      } else {
        eof := true;
      }
    }

    /** Advances when the lookahead is `expected`; otherwise fails and changes nothing. */
    method Eat(expected: char) returns (r: Result<()>)
      modifies this
      ensures expected == old(currentChar) ==> r == Ok(()) && State() == Step(old(State()))
      ensures expected != old(currentChar) ==>
        r == Err(IllegalCharacter(expected, old(currentChar))) && State() == old(State())
    {
      if expected == currentChar {
        GetNextChar();
        r := Ok(());
      } else {
        r := Err(IllegalCharacter(expected, currentChar));
      }
    }

    function HasNext(): (b: bool)
      reads this
      ensures b <==> !eof
    {
      !eof
    }

    method RemoveWhiteSpace() returns (more: bool)
      modifies this
      ensures State() == SkipSpaces(old(State()))
      ensures more == !eof
    {
      while IsWhiteSpace(currentChar) && HasNext()
        invariant SkipSpaces(State()) == SkipSpaces(old(State()))
        decreases Measure(State())
      {
        var _ := Eat(currentChar);
      }
      more := HasNext();
    }

    /** The loop shared by `scanNumber` (digits) and `scanIdentifier` (letters). */
    method ScanRunOf(cls: CharClass) returns (lex: string)
      modifies this
      ensures (lex, State()) == ScanRun(old(State()), cls, "")
    {
      lex := "";
      while InClass(currentChar, cls)
        invariant ScanRun(State(), cls, lex) == ScanRun(old(State()), cls, "")
        decreases Measure(State())
      {
        var was := State();
        lex := lex + [currentChar];
        var _ := Eat(currentChar);
        if eof {
          return;
        }
        assert Measure(State()) < Measure(was) by {
          assert !was.eof;
        }
      }
    }

    method ScanNumber() returns (lex: string)
      modifies this
      ensures (lex, State()) == ScanRun(old(State()), Digits, "")
    {
      lex := ScanRunOf(Digits);
    }

    method ScanIdentifier() returns (lex: string)
      modifies this
      ensures (lex, State()) == ScanRun(old(State()), Letters, "")
    {
      lex := ScanRunOf(Letters);
    }

    method ScanOperand() returns (lex: string)
      modifies this
      ensures (lex, State()) == ScanOperator(old(State()))
    {
      lex := "";
      if IsOperand(currentChar) {
        lex := [currentChar];
        if HasNext() {
          var _ := Eat(currentChar);
        } else {
          return;
        }
      }
      if lex == "<" && currentChar == '>' {
        lex := lex + [currentChar];
        if HasNext() {
          var _ := Eat(currentChar);
        }
      } else if currentChar == '=' {
        lex := lex + [currentChar];
        if HasNext() {
          var _ := Eat(currentChar);
        }
      }
    }

    method NextToken() returns (r: Result<string>)
      modifies this
      ensures Lex(old(State())).Ok? ==>
        r == Ok(Lex(old(State())).value.0) && State() == Lex(old(State())).value.1
      ensures Lex(old(State())).Err? ==>
        r == Err(Lex(old(State())).error) && State() == SkipSpaces(old(State()))
    {
      var more := RemoveWhiteSpace();
      if !more {
        return Ok("EOF");
      }
      if IsDigit(currentChar) {
        var t := ScanNumber();
        r := Ok(t);
      } else if IsLetter(currentChar) {
        var t := ScanIdentifier();
        r := Ok(t);
      } else if IsOperand(currentChar) {
        var t := ScanOperand();
        r := Ok(t);
      } else if currentChar == '.' {
        eof := true;
        r := Ok("EOF");
      } else {
        r := Err(UnrecognizedCharacter(currentChar));
      }
    }
  }
}
