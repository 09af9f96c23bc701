# A verified model of a toy Pascal compiler and interpreter

The system is a small pipeline for a Pascal-like language with `VAR` sections, procedures,
`WRITELN`, `BEGIN … END` blocks, one-branch `IF … THEN` and `WHILE … DO`. It has five parts:

- The **scanner** reads characters with one character of lookahead and hands out string tokens.
  A token is a run of digits, a run of letters, or a one- or two-character operator. After a '.'
  or the end of the text every token is `"EOF"`.
- The **parser** is recursive descent with one token of lookahead. It builds the
  abstract syntax tree.
- The **environment** holds a variable map, a procedure map and a parent pointer.
- The **interpreter** is the `eval`/`exec` methods of the tree. They run a program against an
  environment with Java's 32-bit `int` arithmetic.
- The **code generator** is the `compile` methods of the tree. They write MIPS assembly through
  an **emitter**, which indents every line that is not a label and hands out label numbers.

## How the model is organised

Each Java class that changes its fields is a Dafny `class` with those fields:
`Scanning.Scanner`, `ParserObject.Parser`, `EnvironmentObject.Environment` and
`EmitterObject.Emitter`. The methods that work on them (`Interpreter`, `Compiler`) update the
objects in place, as the Java code does. Every method is proved to end in the state that a
function of the old state gives:

| functions | what they describe |
|---|---|
| `Scanning.Step`, `Scanning.Lex`, … | the scanner |
| `Parsing.ParseFactor`, … | the parser |
| `Environments.SetVariable`, … | the environment |
| `Semantics.Eval`, `Semantics.Exec`, … | the interpreter |
| `Emitting.Emit`, `CodeGen.CompileStmt`, … | the emitter and the code generator |

The properties are lemmas about those functions. They live in `Scanning`, `ParserProperties`, `ParserFrame`,
`Environments`, `SemanticsProperties`, `Emitting`, `CodeGenProperties` and `CodeGenLabels`.
`JavaInt` models Java `int` arithmetic: wrap-around, `/` truncating toward zero, and `%` with
the sign of the dividend. `Decimal` models `Integer.parseInt` and the decimal text of an `int`.

Four behaviours of the code are modelled as written:

- **A final lone '=' pairs with itself.** At the end of the input the scanner's lookahead keeps
  its last character. So a '=' that is the last character of the text, and that no operator
  before it has taken as its second character, yields the token "==". A text ending in "<=" or
  ":=" ends with that pair instead: "x<=" scans to "x", "<=".
- **'=' conditions are always false in the interpreter.** The parser produces "=" for equality.
  `Condition.eval` tests "==", so an "=" condition evaluates to 0. `Condition.compile` does
  test "=".
- **One-level variable lookup.** Variable lookup and update reach one level up at most, and
  procedures are always found at the root.
- **Endless list loops.** At the end of the stream, the argument, VAR and parameter list loops
  of the parser eat "EOF" as a name and never end. The model answers `Diverges` there.

## Model

| member | source | states |
|---|---|---|
| Scanning.IsDigit | Compiler/src/scanner/Scanner.java:187-190 | the digits '0' to '9'; none of them is a letter, white space or an operator character (`CharClassesDisjoint`) |
| Scanning.IsLetter | Compiler/src/scanner/Scanner.java:200-203 | the ASCII letters 'a' to 'z' and 'A' to 'Z'; none of them is white space or an operator character (`CharClassesDisjoint`) |
| Scanning.IsWhiteSpace | Compiler/src/scanner/Scanner.java:213-216 | space, tab, CR and LF; none of them is an operator character (`CharClassesDisjoint`) |
| Scanning.IsOperand | Compiler/src/scanner/Scanner.java:226-231 | the thirteen characters `= + - * / % ( ) ; : < > ,`. The doc comment before it lists only nine; the code, followed here, has thirteen |
| Scanning.CharClassesDisjoint | Compiler/src/scanner/Scanner.java:187-231 | the four character classes share no character, and '.' is in none of them |
| Scanning.Start | Compiler/src/scanner/Scanner.java:47-52 | a new scanner is in a valid state over the given text |
| Scanning.Scanner.constructor | Compiler/src/scanner/Scanner.java:47-52 | the object's fields are the state `Start` gives |
| Scanning.Step | Compiler/src/scanner/Scanner.java:58-72 | reading keeps the text and a valid state valid, and uses up input while `eof` is false |
| Scanning.StepAdvancesCursor | Compiler/src/scanner/Scanner.java:58-72 | the lookahead is the character at the cursor, and one read moves the cursor one place |
| Scanning.Cursor | Compiler/src/scanner/Scanner.java:58-72 | the cursor never passes the end of the text |
| Scanning.Scanner.GetNextChar | Compiler/src/scanner/Scanner.java:58-72 | the fields change as `Step` says: the next character, or `eof` with `currentChar` unchanged |
| Scanning.Scanner.Eat | Compiler/src/scanner/Scanner.java:83-90 | on the expected character it reads on; otherwise it fails with that character and changes nothing |
| Scanning.Scanner.HasNext | Compiler/src/scanner/Scanner.java:97-100 | true exactly while `eof` is not set |
| Scanning.SkipSpaces | Compiler/src/scanner/Scanner.java:110-118 | skipping white space keeps the text and a valid state valid, and never adds input |
| Scanning.SkipSpacesSkipsWhiteSpace | Compiler/src/scanner/Scanner.java:110-118 | only space, tab, CR and LF lie between the cursor before and after, and it stops on a non-blank or at the end |
| Scanning.Scanner.RemoveWhiteSpace | Compiler/src/scanner/Scanner.java:110-118 | the fields change as `SkipSpaces` says, and the answer is whether input remains |
| Scanning.ScanRun | Compiler/src/scanner/Scanner.java:242-263 | a run scan keeps the text and validity, and consumes input when it starts on a character of its class |
| Scanning.ScanRunCollects | Compiler/src/scanner/Scanner.java:247-255 | the run is exactly the text from the cursor to where the scan stops, all of its class |
| Scanning.ScanRunIsMaximal | Compiler/src/scanner/Scanner.java:247-255 | a run stops only at the end of the text or before a character outside its class |
| Scanning.ScanRunConsumesFirst | Compiler/src/scanner/Scanner.java:247-255 | a run that starts on a character of its class takes at least that character |
| Scanning.Scanner.ScanRunOf | Compiler/src/scanner/Scanner.java:247-255 | the loop returns the run and leaves the fields as `ScanRun` says |
| Scanning.Scanner.ScanNumber | Compiler/src/scanner/Scanner.java:242-263 | returns the run of digits, leaving the fields as `ScanRun` says |
| Scanning.Scanner.ScanIdentifier | Compiler/src/scanner/Scanner.java:274-294 | returns the run of letters, leaving the fields as `ScanRun` says |
| Scanning.DigitTokenIsMaximalRun | Compiler/src/scanner/Scanner.java:242-263 | a digit after white space starts a token that is the maximal run of digits from there |
| Scanning.LetterTokenIsMaximalRun | Compiler/src/scanner/Scanner.java:274-294 | a letter after white space starts a token that is the maximal run of letters from there |
| Scanning.StepIfMore | Compiler/src/scanner/Scanner.java:305-339 | a read guarded by `hasNext` keeps the text and validity, and never adds input |
| Scanning.ScanOperator | Compiler/src/scanner/Scanner.java:305-339 | the operator scan keeps the text and validity, and consumes the operator |
| Scanning.OperatorAt | Compiler/src/scanner/Scanner.java:305-339 | the operator token at an index, read off the text: it starts with the operator and has one or two characters |
| Scanning.ScanOperatorTakes | Compiler/src/scanner/Scanner.java:305-339 | the scan returns the token `OperatorAt` reads at the cursor |
| Scanning.OperatorToken | Compiler/src/scanner/Scanner.java:305-339 | an operator after white space starts the token `OperatorAt` names: the pair when '=' follows or for "<>", else the operator alone |
| Scanning.Scanner.ScanOperand | Compiler/src/scanner/Scanner.java:305-339 | returns the operator token, leaving the fields as `ScanOperator` says |
| Scanning.FinalEqualsPairsWithItself | Compiler/src/scanner/Scanner.java:325-331 | the text "=" scans to the token "==" and then sets `eof` |
| Scanning.AssignOperatorIsOneToken | Compiler/src/scanner/Scanner.java:325-331 | ":=" is one token, and the next call answers "EOF" |
| Scanning.Lex | Compiler/src/scanner/Scanner.java:129-176 | a token keeps the text and validity, and consumes input while input remains |
| Scanning.Scanner.NextToken | Compiler/src/scanner/Scanner.java:129-176 | returns the token `Lex` gives and moves the fields to its state, or fails with its error |
| Scanning.Tokens | Compiler/src/scanner/Scanner.java:129-134 | the token stream of a text up to the first "EOF" has at least one token |
| Scanning.Tokenize | Compiler/src/scanner/Scanner.java:129-176 | the stream of a whole text has at least one token, and each is "EOF", a digit run, a letter run or an operator token |
| Scanning.TokensWellFormed | Compiler/src/scanner/Scanner.java:129-176 | every token of a stream is "EOF", a digit run, a letter run or an operator token |
| Scanning.EndIsSticky | Compiler/src/scanner/Scanner.java:133-134 | once `eof` is set, every call answers "EOF" and changes nothing |
| Parsing.Tok | Compiler/src/scanner/Scanner.java:133-134 | the parser's current token at an index: the stream's token, and "EOF" for ever past its end, as the scanner answers once `eof` is set (`Scanning.EndIsSticky`) |
| Scanning.DotEndsInput | Compiler/src/scanner/Scanner.java:164-168 | a '.' answers "EOF" and sets `eof`, so the next call answers "EOF" too |
| Scanning.WhiteSpaceThenDot | Compiler/src/scanner/Scanner.java:110-118 | white space then '.' has "EOF" as its whole token stream |
| Scanning.WhiteSpaceOnly | Compiler/src/scanner/Scanner.java:110-118 | white space alone has "EOF" as its whole token stream and sets `eof` |
| Scanning.ErrorExactlyOnUnknownCharacter | Compiler/src/scanner/Scanner.java:169-175 | a scan error happens exactly when the first non-blank character is no digit, letter, operator or '.' |
| Scanning.TokensAreWellFormed | Compiler/src/scanner/Scanner.java:158-163 | every token is "EOF", a non-empty run of digits or of letters, or an operator token |
| Scanning.TokensHoldNoWhiteSpace | Compiler/src/scanner/Scanner.java:213-216 | no token contains white space |
| ParserObject.Parser.constructor | Compiler/src/parser/Parser.java:29-35 | the parser starts at the first token of the stream |
| ParserObject.Parser.Eat | Compiler/src/parser/Parser.java:43-54 | advances one token exactly when the current token is the expected one; otherwise fails with both tokens and consumes nothing |
| Parsing.ParseFactor | Compiler/src/parser/Parser.java:129-176 | a parsed factor consumes at least one token |
| ParserObject.Parser.ParseFactor | Compiler/src/parser/Parser.java:129-176 | returns what `Parsing.ParseFactor` gives from the current index, and moves past it |
| Parsing.ParseArgs | Compiler/src/parser/Parser.java:157-168 | a parsed argument list consumes at least its ")" |
| ParserFrame.ArgsWithCommas | Compiler/src/parser/Parser.java:159-167 | for every list of argument items joined with ",", each of which parses, before the token that follows it, as its expression and does not start with ")": the argument loop returns exactly those expressions, in order, and ends after the ")" |
| ParserFrame.ArgsWithoutCommas | Compiler/src/parser/Parser.java:159-167 | the comma is optional: the same items laid end to end with no separator give the same expressions, provided no item after the first starts with "," and each item, read before the next item's first token, is still that item's expression |
| ParserFrame.SignedArgumentAfterComma | Compiler/src/parser/Parser.java:159-167 | "a , - b )" is two arguments, `a` and `0 - b` |
| ParserFrame.MinusWithoutComma | Compiler/src/parser/Parser.java:159-167 | without the comma, "a - b )" is one argument, `a - b`: the proviso of `ArgsWithoutCommas` is needed |
| ParserProperties.FactorShape | Compiler/src/parser/Parser.java:129-176 | a parsed factor uses only the four arithmetic operators and no condition as a value |
| ParserProperties.FactorCases | Compiler/src/parser/Parser.java:129-176 | for every token list. After "(", the inner expression is returned and ")" is demanded, failing as `eat(")")`. After "-", the result is `0 - f` for the factor f that follows. A token `parseInt` accepts gives that number and consumes one token. Any other token followed by "(" gives a call of that name with the parsed arguments. Any other token gives the variable of that name and consumes one token |
| ParserProperties.ArgsShape | Compiler/src/parser/Parser.java:157-168 | so do the arguments of a call |
| ParserProperties.LeadingMinusIsZeroMinus | Compiler/src/parser/Parser.java:138-142 | "- - 7" parses as `0 - (0 - 7)` |
| ParserProperties.PunctuationIsAName | Compiler/src/parser/Parser.java:143-175 | ";" alone parses as the variable ";" |
| ParserProperties.OverlongNumberIsAName | Compiler/src/parser/Parser.java:143-175 | a digit run out of `int` range parses as a variable, not a number |
| ParserProperties.UnclosedCallDiverges | Compiler/src/parser/Parser.java:157-168 | a call whose argument list is not closed before the end of the stream runs for ever |
| Parsing.ParseTerm | Compiler/src/parser/Parser.java:183-201 | a parsed term consumes at least one token |
| Parsing.TermLoop | Compiler/src/parser/Parser.java:183-201 | the loop over "*" and "/" never moves backwards |
| ParserObject.Parser.ParseTerm | Compiler/src/parser/Parser.java:183-201 | returns what `Parsing.ParseTerm` gives, and moves past it |
| ParserProperties.TermShape | Compiler/src/parser/Parser.java:183-201 | a parsed term uses only the arithmetic operators |
| ParserProperties.TermLoopShape | Compiler/src/parser/Parser.java:183-201 | so does the tree the term loop builds |
| ParserProperties.ProductBindsTighter | Compiler/src/parser/Parser.java:183-201 | "a + b * c" parses as `a + (b * c)` |
| Parsing.ParseExpression | Compiler/src/parser/Parser.java:209-226 | a parsed expression consumes at least one token |
| Parsing.ExprLoop | Compiler/src/parser/Parser.java:209-226 | the loop over "+" and "-" never moves backwards |
| ParserObject.Parser.ParseExpression | Compiler/src/parser/Parser.java:209-226 | returns what `Parsing.ParseExpression` gives, and moves past it |
| ParserProperties.ExpressionShape | Compiler/src/parser/Parser.java:209-226 | a parsed expression uses only the arithmetic operators |
| ParserProperties.ExprLoopShape | Compiler/src/parser/Parser.java:209-226 | so does the tree the expression loop builds |
| ParserProperties.SubtractionNestsLeft | Compiler/src/parser/Parser.java:209-226 | "a - b - c" parses as `(a - b) - c` |
| ParserProperties.LoopTurn | Compiler/src/parser/Parser.java:183-226 | one turn of the "*"/"/" or "+"/"-" loop: after an operator of its level and an operand parsed to `a`, the loop goes on from the operand's end with `acc op a` as its left operand |
| ParserProperties.LoopStops | Compiler/src/parser/Parser.java:183-226 | a loop fails when its operand fails. At any token that is not one of its two operators, it stops without consuming and returns the tree built so far |
| ParserProperties.LoopFoldsChain | Compiler/src/parser/Parser.java:183-226 | for every token list and every chain of operators of a level, each followed by an operand (a term for "+"/"-", a factor for "*"/"/"), ending at a token that is not an operator of the level: the loop consumes the whole chain and builds the left-nested `((acc op1 a1) op2 a2) ...` |
| ParserProperties.LoopIsChain | Compiler/src/parser/Parser.java:183-226 | conversely, whatever a loop builds is such a left fold. Every right operand is a whole term (for "+"/"-") or a whole factor (for "*"/"/"), and the loop ends at the first token outside its operators |
| ParserProperties.ChainOfLoop | Compiler/src/parser/Parser.java:183-226 | the same, with the chain given as the lemma's result |
| ParserProperties.ExpressionIsLeftFold | Compiler/src/parser/Parser.java:209-226 | an expression is its first term folded from the left with the chain of "+"/"-" and terms after it |
| ParserProperties.TermIsLeftFold | Compiler/src/parser/Parser.java:183-201 | a term is its first factor folded from the left with the chain of "*"/"/" and factors after it |
| Parsing.ParseCondition | Compiler/src/parser/Parser.java:248-254 | a parsed condition consumes at least one token |
| ParserObject.Parser.ParseCondition | Compiler/src/parser/Parser.java:248-254 | returns what `Parsing.ParseCondition` gives, and moves past it |
| ParserProperties.ConditionShape | Compiler/src/parser/Parser.java:248-254 | both operands of a parsed condition use only the arithmetic operators |
| Parsing.ParseCompOp | Compiler/src/parser/Parser.java:260-292 | succeeds exactly on the six comparison operators and returns the token; anything else fails as `eat(">=")` |
| ParserObject.Parser.ParseCompOp | Compiler/src/parser/Parser.java:260-292 | returns what `Parsing.ParseCompOp` gives, and moves past it |
| Parsing.ParseStatement | Compiler/src/parser/Parser.java:72-122 | a parsed statement starts inside the stream and consumes at least one of its tokens |
| ParserObject.Parser.ParseStatement | Compiler/src/parser/Parser.java:72-122 | returns what `Parsing.ParseStatement` gives, and moves past it |
| ParserProperties.StatementShape | Compiler/src/parser/Parser.java:72-122 | a parsed statement holds no declaration and no `if` with an else branch |
| ParserProperties.StatementCases | Compiler/src/parser/Parser.java:72-122 | for every token list, the exact result of each branch. "WRITELN" demands "(", the expression, ")" and ";", failing at the first token that is missing. "BEGIN" takes the block's statements and demands ";" after the "END". "IF" and "WHILE" take the condition, demand "THEN" or "DO", and return the one-branch `if` or the loop around the statement after it. Any other token is the assigned name: ":=", the expression and ";" are demanded |
| Parsing.ParseWriteln | Compiler/src/parser/Parser.java:74-82 | a WRITELN statement consumes tokens within the stream |
| ParserObject.Parser.ParseWriteln | Compiler/src/parser/Parser.java:74-82 | returns what `Parsing.ParseWriteln` gives, and moves past it |
| Parsing.ParseBeginEnd | Compiler/src/parser/Parser.java:83-95 | a BEGIN block consumes tokens within the stream |
| Parsing.BlockLoop | Compiler/src/parser/Parser.java:83-95 | the statement loop of a block stops on "END" |
| ParserObject.Parser.ParseBeginEnd | Compiler/src/parser/Parser.java:83-95 | returns what `Parsing.ParseBeginEnd` gives, and moves past it |
| ParserProperties.BlockLoopShape | Compiler/src/parser/Parser.java:83-95 | the statements of a block hold no declaration and no else branch |
| Parsing.ParseIfThen | Compiler/src/parser/Parser.java:97-104 | an IF statement consumes tokens within the stream |
| ParserObject.Parser.ParseIfThen | Compiler/src/parser/Parser.java:97-104 | returns what `Parsing.ParseIfThen` gives, and moves past it |
| ParserProperties.IfHasOnlyThenBranch | Compiler/src/parser/Parser.java:97-104 | IF builds the one-branch `if`: it has no else branch |
| Parsing.ParseWhileDo | Compiler/src/parser/Parser.java:105-112 | a WHILE statement consumes tokens within the stream |
| ParserObject.Parser.ParseWhileDo | Compiler/src/parser/Parser.java:105-112 | returns what `Parsing.ParseWhileDo` gives, and moves past it |
| Parsing.ParseAssignment | Compiler/src/parser/Parser.java:113-121 | an assignment consumes at least its name and ":=", within the stream |
| ParserObject.Parser.ParseAssignment | Compiler/src/parser/Parser.java:113-121 | returns what `Parsing.ParseAssignment` gives, and moves past it |
| Parsing.ParseNames | Compiler/src/parser/Parser.java:306-319 | a name list never raises an error, and it stops on its closing token |
| ParserFrame.NamesWithoutCommas | Compiler/src/parser/Parser.java:309-318 | for every list of names, none of them "," or the closing token, standing in the tokens before the closing token: the loop returns the accumulated names followed by exactly those names, and stops on the closing token |
| ParserFrame.NamesWithCommas | Compiler/src/parser/Parser.java:309-318 | the same names with "," between each two of them give the same list; the loop stops on the closing token, after the last name |
| ParserFrame.NamesFrame | Compiler/src/parser/Parser.java:309-318 | a name list reads only its own tokens and the closing token: any token list that agrees with it there gives the same names and the same end |
| ParserObject.Parser.ParseNames | Compiler/src/parser/Parser.java:306-319 | returns what `Parsing.ParseNames` gives, and stops where the function runs for ever |
| ParserProperties.NameListsNeverFail | Compiler/src/parser/Parser.java:306-319 | a name list ends at its closing token or runs for ever |
| ParserProperties.UnclosedVarListDiverges | Compiler/src/parser/Parser.java:306-319 | a VAR list without its ";" runs for ever |
| Parsing.VarSections | Compiler/src/parser/Parser.java:306-319 | the VAR loop never raises an error and stops on a token other than "VAR" |
| Parsing.VarSectionsStep | Compiler/src/parser/Parser.java:306-319 | one VAR section is its names, its ";", then the sections after it |
| ParserObject.Parser.ParseVarSections | Compiler/src/parser/Parser.java:306-319 | returns what `Parsing.VarSections` gives, and moves past it |
| ParserObject.Parser.ParseVarSection | Compiler/src/parser/Parser.java:306-319 | one iteration reads a section and returns the sections from there |
| Parsing.ParseProcHead | Compiler/src/parser/Parser.java:321-341 | a PROCEDURE head consumes at least one token |
| ParserObject.Parser.ParseProcHead | Compiler/src/parser/Parser.java:321-341 | returns what `Parsing.ParseProcHead` gives, and moves past it |
| Parsing.ParseProcDecl | Compiler/src/parser/Parser.java:321-341 | a declaration consumes at least one token |
| ParserObject.Parser.ParseProcDecl | Compiler/src/parser/Parser.java:321-341 | returns what `Parsing.ParseProcDecl` gives, and moves past it |
| Parsing.ProcDecls | Compiler/src/parser/Parser.java:321-341 | the PROCEDURE loop stops on a token other than "PROCEDURE" |
| ParserObject.Parser.ParseProcDecls | Compiler/src/parser/Parser.java:321-341 | returns what `Parsing.ProcDecls` gives, and moves past it |
| ParserProperties.ProcDeclsShape | Compiler/src/parser/Parser.java:321-341 | the bodies of parsed procedures hold no declaration and no else branch |
| ParserObject.Parser.ParseProgram | Compiler/src/parser/Parser.java:303-344 | returns what `Parsing.ParseProgram` gives: VAR sections, then declarations, then one statement |
| Parsing.ParseProgram | Compiler/src/parser/Parser.java:303-344 | a parsed program ends inside the token list, after at least one token |
| ParserFrame.TrailingTokensUnread | Compiler/src/parser/Parser.java:303-344 | a parsed program never looks past the index it ends at: the tokens before that index, followed by any tokens at all, parse to the same program ending at the same index |
| ParserFrame.TrailingTokensExample | Compiler/src/parser/Parser.java:303-344 | "x := 1 ; y @" parses, as a token list, to the assignment alone, ending before "y" |
| ParserFrame.ProgramFrame | Compiler/src/parser/Parser.java:303-344 | any token list that agrees with a parsed program's tokens up to its end parses to the same program |
| ParserFrame.ProcDeclsFrame | Compiler/src/parser/Parser.java:321-341 | the PROCEDURE loop reads its declarations and the token after them, and nothing else |
| ParserFrame.VarSectionsFrame | Compiler/src/parser/Parser.java:306-319 | the VAR loop reads its sections and the token after them, and nothing else |
| ParserFrame.StatementFrame | Compiler/src/parser/Parser.java:72-122 | a statement reads only its own tokens: a list that agrees with them gives the same statement, ending at the same offset |
| ParserFrame.BlockLoopFrame | Compiler/src/parser/Parser.java:87-90 | a block's loop reads its statements and the "END" it stops on, and nothing else |
| ParserFrame.ExpressionFrame | Compiler/src/parser/Parser.java:209-226 | an expression reads its tokens and the one token after them, and nothing else |
| ParserFrame.FactorFrame | Compiler/src/parser/Parser.java:129-176 | so does a factor |
| ParserProperties.ProgramShape | Compiler/src/parser/Parser.java:303-344 | a parsed program holds no declaration statement, no condition as a value and no else branch |
| Environments.Empty | Compiler/src/environment/Environment.java:23-27 | a new root environment has no parent, binds no variable and finds no procedure |
| Environments.Extending | Compiler/src/environment/Environment.java:34-39 | a new child environment is one level deeper, and it sees exactly its parent's own variables: the grandparent's are not visible |
| Environments.GetVariable | Compiler/src/environment/Environment.java:76-93 | a local binding hides the parent's, and nothing further out than the parent is found |
| Environments.DeclareVariable | Compiler/src/environment/Environment.java:128-131 | binds the name locally to the value and leaves every other local name, the procedures and the parent alone |
| Environments.SetProcedure | Compiler/src/environment/Environment.java:101-104 | registers the declaration locally under its name, replacing an earlier one, and leaves the variables and the parent alone |
| Environments.GetProcedure | Compiler/src/environment/Environment.java:113-120 | a procedure found is the one the root's procedure map holds under that name |
| Environments.SetVariable | Compiler/src/environment/Environment.java:47-66 | `setVariable` keeps the number of enclosing environments |
| EnvironmentObject.Environment.SetVariable | Compiler/src/environment/Environment.java:47-66 | the object and its parent change as `Environments.SetVariable` says |
| Environments.SetThenGet | Compiler/src/environment/Environment.java:47-93 | after `setVariable(x, v)`, `getVariable(x)` is `v` |
| Environments.SetKeepsOthers | Compiler/src/environment/Environment.java:47-93 | `setVariable(x, v)` changes what no other name reads |
| Environments.SetChangesOneMap | Compiler/src/environment/Environment.java:47-66 | `setVariable` changes one variable map, the local or the parent's, at `x` only; procedures and outer environments stay as they were |
| Environments.SetWritesParent | Compiler/src/environment/Environment.java:47-66 | a name the parent binds and the environment does not is written into the parent |
| Environments.GetFailsIff | Compiler/src/environment/Environment.java:76-93 | lookup fails exactly when neither the environment nor its parent binds the name |
| Environments.GrandparentInvisible | Compiler/src/environment/Environment.java:76-93 | a name bound only in the grandparent is not found |
| EnvironmentObject.Environment.GetVariable | Compiler/src/environment/Environment.java:76-93 | answers `Environments.GetVariable` of the object's value |
| Environments.DeclareShadows | Compiler/src/environment/Environment.java:128-131 | `declareVariable` binds locally, hides a parent binding, keeps the parent and every other name |
| EnvironmentObject.Environment.DeclareVariable | Compiler/src/environment/Environment.java:128-131 | the object changes as `Environments.DeclareVariable` says |
| Environments.Root | Compiler/src/environment/Environment.java:113-120 | the outermost environment has no parent |
| Environments.GetProcedureAtRoot | Compiler/src/environment/Environment.java:113-120 | `getProcedure` answers from the root's procedure map at any depth |
| EnvironmentObject.Environment.GetProcedure | Compiler/src/environment/Environment.java:113-120 | answers `Environments.GetProcedure` of the object's value |
| Environments.SetProcedureBelowRootUnseen | Compiler/src/environment/Environment.java:101-104 | a procedure registered below the root is never found |
| Environments.SetProcedureAtRoot | Compiler/src/environment/Environment.java:101-104 | registered at the root, the latest declaration of a name wins and other names are unaffected |
| EnvironmentObject.Environment.SetProcedure | Compiler/src/environment/Environment.java:101-104 | the object changes as `Environments.SetProcedure` says |
| Environments.VariablesKeepProcedures | Compiler/src/environment/Environment.java:47-66 | updating or declaring variables never changes which procedures are found |
| Environments.RootOfParentUpdate | Compiler/src/environment/Environment.java:113-120 | two environments that differ only in their own variables have the same root procedures |
| Environments.ExtendingKeepsProcedures | Compiler/src/environment/Environment.java:34-39 | a new environment has its parent's root, so it sees the same procedures |
| EnvironmentObject.Environment.constructor | Compiler/src/environment/Environment.java:23-27 | a new root environment is empty and has no parent |
| EnvironmentObject.Environment.Extend | Compiler/src/environment/Environment.java:34-39 | a new environment is empty and extends the given one |
| EnvironmentObject.Environment.ParentFrame | Compiler/src/environment/Environment.java:34-39 | the parent chain has no cycle: the grandparent is neither this object nor its parent |
| EnvironmentObject.Environment.GetParent | Compiler/src/environment/Environment.java:138-141 | null exactly for a root; otherwise the parent, whose value is the model's parent |
| JavaInt.Wrap | Compiler/src/ast/BinOp.java:39-61 | the two's-complement result is congruent to the exact one modulo 2^32, and equal to it when that is in range |
| JavaInt.WrapUnique | Compiler/src/ast/BinOp.java:39-61 | there is only one such value in range |
| JavaInt.Add | Compiler/src/ast/BinOp.java:51-52 | Java `+` is the exact sum whenever that is in range |
| JavaInt.Sub | Compiler/src/ast/BinOp.java:55-56 | Java `-` is the exact difference whenever that is in range |
| JavaInt.Mul | Compiler/src/ast/BinOp.java:43-44 | Java `*` is the exact product whenever that is in range |
| JavaInt.Quot | Compiler/src/ast/BinOp.java:47-48 | truncating division: the magnitude is the largest quotient below and the sign is the product of signs |
| JavaInt.Remainder | Compiler/src/ast/BinOp.java:59-60 | the remainder goes with the truncating quotient, is smaller than the divisor and has the dividend's sign |
| JavaInt.Div | Compiler/src/ast/BinOp.java:47-48 | Java `/` is the truncating quotient, except `MIN / -1`, which is `MIN` |
| JavaInt.QuotInRange | Compiler/src/ast/BinOp.java:47-48 | the truncating quotient of two `int`s is an `int` except for `MIN / -1` |
| JavaInt.Rem | Compiler/src/ast/BinOp.java:59-60 | Java `%` is that remainder and never overflows |
| JavaInt.DivRemIdentity | Compiler/src/ast/BinOp.java:47-60 | `(a / b) * b + a % b == a` in `int` arithmetic |
| JavaInt.TruncationExamples | Compiler/src/ast/BinOp.java:47-60 | -7 / 2 is -3 with remainder -1, and 7 / -2 is -3 with remainder 1 |
| Decimal.NatToString | Compiler/src/ast/Number.java:42-45 | the decimal digits of a natural, at least one and no leading zero |
| Decimal.IntToString | Compiler/src/ast/Number.java:42-45 | the text of an `int`: its digits, with '-' in front of a negative one |
| Decimal.DigitsValueOfNatToString | Compiler/src/ast/Number.java:42-45 | the digits read back as the number |
| Decimal.NatToStringInjective | Compiler/src/ast/If.java:84-93 | distinct numbers have distinct texts, so label names built on them differ |
| Decimal.ParseInt | Compiler/src/parser/Parser.java:143-175 | `Integer.parseInt` accepts only a sign or a digit first, and a number without '-' is not negative |
| Decimal.ParseIntOfIntToString | Compiler/src/parser/Parser.java:143-175 | `parseInt` reads back the text of every `int` |
| Decimal.ParseIntRejectsOverflow | Compiler/src/parser/Parser.java:143-175 | a digit run beyond `int` range is rejected |
| Semantics.Eval | Compiler/src/ast/BinOp.java:39-61 | evaluation keeps the environment's depth and only appends to the output |
| Semantics.Apply | Compiler/src/ast/BinOp.java:39-61 | an operation fails exactly when it divides (any operator but "*", "+" and "-") by zero |
| Semantics.Compare | Compiler/src/ast/Condition.java:35-83 | a comparison answers 0 or 1 |
| Semantics.EvalCond | Compiler/src/ast/Condition.java:35-83 | a condition evaluates to 0 or 1, keeps the depth and only appends to the output |
| Semantics.Call | Compiler/src/ast/ProcedureCall.java:37-54 | a call keeps the caller's depth and only appends to the output |
| Semantics.Invoke | Compiler/src/ast/ProcedureCall.java:52-53 | running a body for a call keeps the caller's depth and only appends to the output |
| Semantics.BindArgs | Compiler/src/ast/ProcedureCall.java:48-51 | binding arguments keeps the depth and only appends to the output |
| Semantics.Exec | Compiler/src/ast/If.java:53-70 | a statement keeps the depth and only appends to the output |
| Semantics.Loop | Compiler/src/ast/While.java:36-47 | a loop keeps the depth and only appends to the output |
| Semantics.ExecSeq | Compiler/src/ast/Block.java:33-40 | a block keeps the depth and only appends to the output |
| Semantics.Register | Compiler/src/ast/Program.java:65-72 | registering declarations leaves variables and parent as they were |
| Semantics.Propagate | Compiler/src/ast/BinOp.java:39-61 | a failure is passed on unchanged |
| Semantics.Home | Compiler/src/ast/ProcedureCall.java:40-44 | the environment a call's environment extends: one level up when the caller has a parent. It has the caller's root, so it finds the same procedures |
| Semantics.Reattach | Compiler/src/ast/ProcedureCall.java:40-45 | the caller after the call shares the updated parent object. A parent the call did not change gives back the caller itself; a caller with a parent keeps its own variables and its depth |
| Semantics.Run | Compiler/src/ast/Program.java:65-72 | running a program keeps the environment's depth and only appends to the output |
| SemanticsProperties.ApplyMeaning | Compiler/src/ast/BinOp.java:39-61 | "*", "/", "+", "-" are Java's operations and every other operator is `%`; division by 0 fails |
| SemanticsProperties.CompareMeaning | Compiler/src/ast/Condition.java:35-83 | a comparison answers 1 exactly when it holds; "=" and unknown operators answer 0 |
| SemanticsProperties.EqualsConditionIsFalse | Compiler/src/ast/Condition.java:40-46 | a condition with the parser's "=" evaluates, if at all, to 0 |
| SemanticsProperties.EvalCallFree | Compiler/src/ast/BinOp.java:39-61 | without calls, `eval` changes neither environment nor output, needs no fuel and gives the pure value |
| SemanticsProperties.NumberEval | Compiler/src/ast/Number.java:30-33 | a number evaluates to itself and changes nothing |
| SemanticsProperties.VariableEval | Compiler/src/ast/Variable.java:32-35 | a variable evaluates to `getVariable`, changes nothing, and fails when neither level binds it |
| SemanticsProperties.LeftOperandFirst | Compiler/src/ast/BinOp.java:39-61 | when the left operand fails, the right one is never evaluated |
| SemanticsProperties.DivisionByZeroFails | Compiler/src/ast/BinOp.java:47-60 | a zero divisor makes `/` and `%` fail after both operands; the other operators never fail |
| SemanticsProperties.UnknownProcedureFails | Compiler/src/ast/ProcedureCall.java:37-54 | a name not registered at the root fails before any argument is evaluated |
| SemanticsProperties.BindArgsBinds | Compiler/src/ast/ProcedureCall.java:48-51 | each parameter with an argument is bound to that argument's value; more arguments than parameters fail |
| SemanticsProperties.BindArgsKeepsUnbound | Compiler/src/ast/ProcedureCall.java:48-51 | a name no bound parameter takes keeps its value |
| SemanticsProperties.CallBindsNameAndParameters | Compiler/src/ast/ProcedureCall.java:37-54 | only the procedure's name, as 0, and the parameters with an argument are bound in a call |
| SemanticsProperties.CallEnvironmentParent | Compiler/src/ast/ProcedureCall.java:40-45 | a call's environment extends the caller's parent, or the caller when it has none; from the root or a call's environment that is the root |
| SemanticsProperties.CallAnswersNameValue | Compiler/src/ast/ProcedureCall.java:52-53 | a call answers the value the body left in the procedure's name, with the caller as the shared parent left it |
| SemanticsProperties.EvalKeepsCallerLocals | Compiler/src/ast/ProcedureCall.java:40-52 | an expression evaluated in a call's environment leaves that environment's own variables and procedures as they were |
| SemanticsProperties.CondKeepsCallerLocals | Compiler/src/ast/ProcedureCall.java:40-52 | so does a condition |
| SemanticsProperties.ArgsKeepCallerLocals | Compiler/src/ast/ProcedureCall.java:40-52 | so does the argument loop |
| SemanticsProperties.ExecKeepsNames | Compiler/src/environment/Environment.java:47-66 | statements never unbind a name, locally or one level up |
| SemanticsProperties.WhileKeepsNames | Compiler/src/ast/While.java:36-47 | neither do loops |
| SemanticsProperties.SeqKeepsNames | Compiler/src/ast/Block.java:33-40 | nor blocks |
| SemanticsProperties.EvalKeepsNames | Compiler/src/ast/BinOp.java:39-61 | nor expressions |
| SemanticsProperties.CondKeepsNames | Compiler/src/ast/Condition.java:35-83 | nor conditions |
| SemanticsProperties.ArgsKeepNames | Compiler/src/ast/ProcedureCall.java:48-51 | nor the argument loop |
| SemanticsProperties.AssignmentStores | Compiler/src/ast/Assignment.java:36-39 | after an assignment the variable reads back the value, and other names read as before |
| SemanticsProperties.IncrementReadsOld | Compiler/src/ast/Assignment.java:36-39 | `x := x + 1` stores one more than the old `x` |
| SemanticsProperties.WritelnAppends | Compiler/src/ast/Writeln.java:29-32 | for an expression without calls: `writeln` leaves the environment unchanged and appends the expression's pure value once, or fails with its error and the output unchanged |
| SemanticsProperties.WritelnAppendsValue | Compiler/src/ast/Writeln.java:29-32 | for any expression, calls included: `writeln` leaves the environment its expression's evaluation left and appends that value once to the output; a fault of the expression is the statement's fault |
| SemanticsProperties.ExecSeqAppend | Compiler/src/ast/Block.java:33-40 | running `a + b` runs `a`, then `b` from where `a` left off |
| SemanticsProperties.EmptyBlockNoop | Compiler/src/ast/Block.java:33-40 | an empty block changes nothing |
| SemanticsProperties.IfChooses | Compiler/src/ast/If.java:53-70 | an `if` runs the then-branch on 1, else the else-branch, and with no else branch does nothing more |
| SemanticsProperties.WhileFalseSkips | Compiler/src/ast/While.java:36-47 | a loop whose condition is not 1 at the start never runs its body |
| SemanticsProperties.WhileEndsOnFalse | Compiler/src/ast/While.java:36-47 | a loop completes only where its last condition evaluation was not 1 |
| SemanticsProperties.DeclarationRegisters | Compiler/src/ast/ProcedureDeclaration.java:40-43 | a declaration registers the procedure in the current environment and touches no variable |
| SemanticsProperties.RegisterFindsLast | Compiler/src/ast/Program.java:65-72 | procedures registered at the root in order make each name find its last declaration |
| SemanticsProperties.RegisterSnoc | Compiler/src/ast/Program.java:65-72 | registering one more declaration registers it after all the others |
| SemanticsProperties.RunStartsEmpty | Compiler/src/ast/Program.java:65-72 | a program starts its main statement at the root with no variable bound, its VAR names included, and each procedure name finds its last declaration |
| SemanticsProperties.EvalMoreFuel | Compiler/src/ast/BinOp.java:39-61 | an evaluation that does not run out of fuel has the same value, environment, output or fault with any more fuel |
| SemanticsProperties.CondMoreFuel | Compiler/src/ast/Condition.java:35-83 | the same for conditions |
| SemanticsProperties.CallMoreFuel | Compiler/src/ast/ProcedureCall.java:37-54 | the same for calls |
| SemanticsProperties.InvokeMoreFuel | Compiler/src/ast/ProcedureCall.java:52-53 | the same for running a called body |
| SemanticsProperties.ArgsMoreFuel | Compiler/src/ast/ProcedureCall.java:48-51 | the same for binding arguments |
| SemanticsProperties.ExecMoreFuel | Compiler/src/ast/If.java:53-70 | the same for statements |
| SemanticsProperties.LoopMoreFuel | Compiler/src/ast/While.java:36-47 | the same for `while` loops |
| SemanticsProperties.SeqMoreFuel | Compiler/src/ast/Block.java:33-40 | the same for blocks |
| SemanticsProperties.RunMoreFuel | Compiler/src/ast/Program.java:65-72 | a program run that does not run out of fuel has the same outcome with any more fuel |
| Interpreter.EvalExpr | Compiler/src/ast/Expression.java:22 | `eval` ends as `Semantics.Eval` does and leaves the environment objects with its value |
| Interpreter.EvalCondition | Compiler/src/ast/Condition.java:35-83 | ends as `Semantics.EvalCond` does |
| Interpreter.CallProcedure | Compiler/src/ast/ProcedureCall.java:37-54 | ends as `Semantics.Call` does |
| Interpreter.InvokeBody | Compiler/src/ast/ProcedureCall.java:52-53 | ends as `Semantics.Invoke` does |
| Interpreter.CallEnvironment | Compiler/src/ast/ProcedureCall.java:40-46 | a new environment object extending the caller's parent, or the caller, with the name bound to 0 |
| Interpreter.BindArguments | Compiler/src/ast/ProcedureCall.java:48-51 | ends as `Semantics.BindArgs` does |
| Interpreter.ExecStmt | Compiler/src/ast/Statement.java:20 | `exec` ends as `Semantics.Exec` does |
| Interpreter.ExecBlock | Compiler/src/ast/Block.java:33-40 | ends as `Semantics.ExecSeq` does |
| Interpreter.ExecWhile | Compiler/src/ast/While.java:36-47 | ends as `Semantics.Loop` does |
| Interpreter.ExecProgram | Compiler/src/ast/Program.java:65-72 | ends as `Semantics.Run` does |
| Emitting.Opened | Compiler/src/ast/Emitter.java:25-35 | a new emitter has an empty, open file and the counter at 0 |
| Emitting.Line | Compiler/src/ast/Emitter.java:42-47 | the line of a code ends with the code, at most one character longer, and is a label exactly when the code is |
| Emitting.Close | Compiler/src/ast/Emitter.java:51-54 | closing keeps the codes and the counter, and nothing emitted afterwards changes the state |
| Emitting.Emit | Compiler/src/ast/Emitter.java:42-47 | `emit`: the code is appended while the file is open (its contract is `Emitting.EmitAppendsOneLine`) |
| Emitting.EmitPush | Compiler/src/ast/Emitter.java:63-67 | `emitPush`: two instructions that store the register on the stack (contract: `Emitting.PushPopLines`) |
| Emitting.EmitPop | Compiler/src/ast/Emitter.java:76-80 | `emitPop`: two instructions that load the register from the stack (contract: `Emitting.PushPopLines`) |
| Emitting.NextLabel | Compiler/src/ast/Emitter.java:88-92 | `nextLabelID`: the counter goes up by one, with wrap-around (contract: `Emitting.NextLabelCounts`) |
| Emitting.Text | Compiler/src/ast/Emitter.java:42-47 | the file has one line per emitted code |
| Emitting.LineLayout | Compiler/src/ast/Emitter.java:42-47 | a label is written as it is; any other code is written after a tab |
| Emitting.IsLabel | Compiler/src/ast/Emitter.java:44 | a code is a label when it ends in ':'; such a line is written without the tab (`Line`, `LineLayout`) |
| Emitting.LineInjective | Compiler/src/ast/Emitter.java:42-47 | different codes give different lines |
| Emitting.TextLines | Compiler/src/ast/Emitter.java:42-47 | line `i` of the file is the line of the `i`-th code |
| Emitting.TextPrefix | Compiler/src/ast/Emitter.java:46 | emitting more only adds lines at the end |
| Emitting.TextCounts | Compiler/src/ast/Emitter.java:42-47 | the file holds as many copies of a code's line as that code was emitted |
| Emitting.EmitAppendsOneLine | Compiler/src/ast/Emitter.java:46 | `emit` on an open file adds exactly one line at the end and keeps the counter |
| Emitting.PushPopLines | Compiler/src/ast/Emitter.java:63-80 | `emitPush(r)` adds `subu $sp $sp 4` and `sw r ($sp)`; `emitPop(r)` adds `lw r ($sp)` and `addu $sp $sp 4`, all indented, counter kept |
| Emitting.PushPopText | Compiler/src/ast/Emitter.java:63-80 | the two stack instructions' lines |
| Emitting.NextLabelCounts | Compiler/src/ast/Emitter.java:88-92 | labels are handed out from 1, one more each time with wrap-around, and writing nothing |
| Emitting.ClosedWritesNothing | Compiler/src/ast/Emitter.java:51-54 | after `close`, nothing reaches the file |
| EmitterObject.Emitter.constructor | Compiler/src/ast/Emitter.java:25-35 | an empty file and the counter at 0 |
| EmitterObject.Emitter.Emit | Compiler/src/ast/Emitter.java:42-47 | the file gets the code's line, as `Emitting.Emit` says |
| EmitterObject.Emitter.Close | Compiler/src/ast/Emitter.java:51-54 | the file is closed and keeps its lines |
| EmitterObject.Emitter.EmitPush | Compiler/src/ast/Emitter.java:63-67 | the file changes as `Emitting.EmitPush` says |
| EmitterObject.Emitter.EmitPop | Compiler/src/ast/Emitter.java:76-80 | the file changes as `Emitting.EmitPop` says |
| EmitterObject.Emitter.NextLabelID | Compiler/src/ast/Emitter.java:88-92 | the counter moves on by one and its new value is returned; nothing is written |
| Compiler.CompileExpr | Compiler/src/ast/Expression.java:30-33 | the emitter ends as `CodeGen.CompileExpr` says, and the answer is whether it did not throw |
| Compiler.CompileBinOp | Compiler/src/ast/BinOp.java:71-95 | ends as `CodeGen.CompileBinOp` says |
| Compiler.CompileCond | Compiler/src/ast/Condition.java:93-124 | ends as `CodeGen.CompileCond` says |
| Compiler.CompileStmt | Compiler/src/ast/Statement.java:28-31 | ends as `CodeGen.CompileStmt` says |
| Compiler.CompileAssignment | Compiler/src/ast/Assignment.java:47-52 | ends as `CodeGen.CompileAssignment` says |
| Compiler.CompileWriteln | Compiler/src/ast/Writeln.java:41-50 | ends as `CodeGen.CompileWriteln` says |
| Compiler.CompileIf | Compiler/src/ast/If.java:82-94 | ends as `CodeGen.CompileIf` says |
| Compiler.CompileWhile | Compiler/src/ast/While.java:57-65 | ends as `CodeGen.CompileWhile` says |
| Compiler.CompileProgram | Compiler/src/ast/Program.java:93-108 | ends as `CodeGen.CompileProgram` says |
| Compiler.CompileToFile | Compiler/src/ast/Program.java:79-82 | `compile(String)` opens an empty file on the name and writes nothing |
| CodeGen.Arith | Compiler/src/ast/BinOp.java:77-94 | the instructions that combine `$t0` and `$v0` for "*", "/", "+" and "-", and none otherwise (contracts: `CodeGenProperties.ArithAppends`, `ArithKeepsStack`) |
| CodeGen.CompileExpr | Compiler/src/ast/Variable.java:46-50 | a number loads its value, and a variable loads its address and then its value. A condition or a call throws (contracts: `CodeGenProperties.ExprCompilesIff`, `ExprAppends`, `ExprBalanced`) |
| CodeGen.CompileBinOp | Compiler/src/ast/BinOp.java:71-95 | the left operand, a push of `$v0`, the right operand, a pop into `$t0`, then the operator; it stops at an operand that throws (contracts: `CodeGenProperties.ExprAppends`, `ExprBalanced`) |
| CodeGen.Branch | Compiler/src/ast/Condition.java:99-122 | the branch taken when the comparison is false, for the six operators, and none otherwise (contract: `CodeGenProperties.BranchOps`) |
| CodeGen.CompileCond | Compiler/src/ast/Condition.java:93-124 | both operands around a push and a pop into `$t1`, then the branch to the target (contracts: `CodeGenProperties.CondCompilesIff`, `CondAppends`, `CondBalanced`) |
| CodeGen.CompileStmt | Compiler/src/ast/Statement.java:28-31 | the code of the four statements that compile; a block or a declaration throws (contracts: `CodeGenProperties.StmtCompilesIff`, `StmtAppends`, `StmtBalanced`, `StmtAdvances`) |
| CodeGen.CompileAssignment | Compiler/src/ast/Assignment.java:47-52 | the value, then a store at the variable's address (contracts: `CodeGenProperties.StmtAppends`, `StmtBalanced`) |
| CodeGen.CompileWriteln | Compiler/src/ast/Writeln.java:41-50 | the value, then the system calls that print it as an integer and print the newline (contracts: `CodeGenProperties.StmtAppends`, `StmtBalanced`) |
| CodeGen.CompileIf | Compiler/src/ast/If.java:82-94 | takes the next label number, then lays the code out with it (contracts: `CodeGenProperties.IfAdvances`, `IfCodeShape`) |
| CodeGen.IfCode | Compiler/src/ast/If.java:85-93 | the test branching to `elseif<l>`, the then-part, `j endif<l>`, `elseif<l>:`, the else-part, `endif<l>:` (contracts: `CodeGenProperties.IfCodeShape`, `IfCodeCompilesIff`) |
| CodeGen.CompileWhile | Compiler/src/ast/While.java:57-65 | takes the next label number, then lays the loop out with it (contracts: `CodeGenProperties.WhileAdvances`, `WhileCodeShape`) |
| CodeGen.WhileCode | Compiler/src/ast/While.java:60-64 | `while<l>:`, the test branching to `endwhile<l>`, the body, `j while<l>`, `endwhile<l>:` (contracts: `CodeGenProperties.WhileCodeShape`, `WhileCodeCompilesIff`) |
| CodeGen.VarLine | Compiler/src/ast/Program.java:99 | the data word of a VAR name, initially 0 (contract: `CodeGenProperties.VarLineEnd`) |
| CodeGen.DeclareVars | Compiler/src/ast/Program.java:97-100 | one data word per VAR name, in order (contract: `CodeGenProperties.DeclareVarsLayout`) |
| CodeGen.Prologue | Compiler/src/ast/Program.java:95-103 | the data segment, then the start of the text segment (contract: `CodeGenProperties.PrologueLayout`) |
| CodeGen.CompileProgram | Compiler/src/ast/Program.java:93-108 | the prologue, the main statement, the exit system call, then `close` (contracts: `CodeGenProperties.ProgramLayout`, `ProgramCompilesIff`) |
| CodeGenProperties.ExprCompilesIff | Compiler/src/ast/Expression.java:30-33 | an expression compiles without throwing exactly when it holds no call and no condition |
| CodeGenProperties.CondCompilesIff | Compiler/src/ast/Condition.java:93-124 | a condition compiles exactly when both operands do |
| CodeGenProperties.StmtCompilesIff | Compiler/src/ast/Statement.java:28-31 | a statement compiles exactly when it is built from assignments, `writeln`, `if` and `while` over such expressions |
| CodeGenProperties.IfCodeCompilesIff | Compiler/src/ast/If.java:82-94 | the code of an `if` compiles exactly when its condition and branches do |
| CodeGenProperties.WhileCodeCompilesIff | Compiler/src/ast/While.java:57-65 | the code of a `while` compiles exactly when its condition and body do |
| CodeGenProperties.ProgramCompilesIff | Compiler/src/ast/Program.java:93-108 | a program compiles exactly when its main statement does, and the file is then closed |
| CodeGenProperties.AppendedTransitive | Compiler/src/ast/Emitter.java:42-47 | appending, then appending again, is appending |
| CodeGenProperties.EmitAppends | Compiler/src/ast/Emitter.java:42-47 | `emit` appends |
| CodeGenProperties.PushPopAppend | Compiler/src/ast/Emitter.java:63-80 | push and pop append |
| CodeGenProperties.ExprAppends | Compiler/src/ast/BinOp.java:71-95 | compiling an expression only appends to the file and takes no label |
| CodeGenProperties.ArithAppends | Compiler/src/ast/BinOp.java:77-94 | the operator's instructions only append |
| CodeGenProperties.CondAppends | Compiler/src/ast/Condition.java:93-124 | compiling a condition only appends and takes no label |
| CodeGenProperties.StmtAppends | Compiler/src/ast/Statement.java:28-31 | compiling a statement only appends and never closes the file |
| CodeGenProperties.IfCodeAppends | Compiler/src/ast/If.java:85-93 | so does the code of an `if` |
| CodeGenProperties.WhileCodeAppends | Compiler/src/ast/While.java:60-64 | so does the code of a `while` |
| CodeGenProperties.AdvanceAdds | Compiler/src/ast/Emitter.java:88-92 | handing out `a` labels, then `b`, is handing out `a + b` |
| CodeGenProperties.AdvanceWraps | Compiler/src/ast/Emitter.java:88-92 | handing out `k` labels adds `k` to the counter with Java's wrap-around |
| CodeGenProperties.StmtAdvances | Compiler/src/ast/If.java:84 | a compiled statement has taken one label per `if` and `while` in it |
| CodeGenProperties.IfAdvances | Compiler/src/ast/If.java:82-94 | an `if` takes its own label and its parts' labels |
| CodeGenProperties.WhileAdvances | Compiler/src/ast/While.java:57-65 | a `while` takes its own label and its body's labels |
| CodeGenProperties.IfCodeShape | Compiler/src/ast/If.java:85-93 | the code of an `if`: the condition branching to `elseif<l>`, the then-part, `j endif<l>`, `elseif<l>:`, the else-part, `endif<l>:` |
| CodeGenProperties.WhileCodeShape | Compiler/src/ast/While.java:60-64 | the code of a `while`: `while<l>:`, the test branching to `endwhile<l>`, the body, `j while<l>`, `endwhile<l>:` |
| CodeGenProperties.IfCodeAdvances | Compiler/src/ast/If.java:85-93 | the parts of an `if` take the then-part's and the else-part's labels |
| CodeGenProperties.ElseAdvances | Compiler/src/ast/If.java:90-92 | the else-part takes its labels after the then-part's |
| CodeGenProperties.WhileCodeAdvances | Compiler/src/ast/While.java:60-64 | the body of a `while` takes its labels after the loop's |
| CodeGenProperties.LabelsCount | Compiler/src/ast/If.java:84 | without wrap-around, a statement's labels are the next numbers in order |
| CodeGenProperties.EmitOther | Compiler/src/ast/Emitter.java:42-47 | any other instruction changes neither the push count nor the pop count |
| CodeGenProperties.PushPopCounts | Compiler/src/ast/Emitter.java:63-80 | a push adds one push and no pop; a pop adds one pop and no push |
| CodeGenProperties.PushPopBalanced | Compiler/src/ast/BinOp.java:73-76 | a push, balanced code, then a pop leaves the balance as it was |
| CodeGenProperties.ArithKeepsStack | Compiler/src/ast/BinOp.java:77-94 | the operator's instructions neither push nor pop |
| CodeGenProperties.ExprBalanced | Compiler/src/ast/BinOp.java:73-76 | the code of an expression pops everything it pushes |
| CodeGenProperties.BranchOps | Compiler/src/ast/Condition.java:99-122 | every branch instruction starts with 'b' |
| CodeGenProperties.CondBalanced | Compiler/src/ast/Condition.java:95-98 | so does the code of a condition, branch included |
| CodeGenProperties.StmtBalanced | Compiler/src/ast/Statement.java:28-31 | so does the code of a statement |
| CodeGenProperties.IfCodeBalanced | Compiler/src/ast/If.java:85-93 | so does the code of an `if` |
| CodeGenProperties.WhileCodeBalanced | Compiler/src/ast/While.java:60-64 | so does the code of a `while` |
| CodeGenProperties.DeclareVarsLayout | Compiler/src/ast/Program.java:97-100 | one data word per VAR name, in the order of the names, duplicates repeated |
| CodeGenProperties.DeclareVarsKeepsStack | Compiler/src/ast/Program.java:97-100 | the data words push and pop nothing |
| CodeGenProperties.PrologueLayout | Compiler/src/ast/Program.java:95-103 | `.data`, the newline string, the words, `.text`, `.globl main`, `main: ` |
| CodeGenProperties.PrologueKeepsStack | Compiler/src/ast/Program.java:95-103 | the prologue pushes and pops nothing |
| CodeGenProperties.ProgramLayout | Compiler/src/ast/Program.java:93-108 | the code starts with the prologue, ends with `li $v0 10` and `syscall` when the main statement compiles, and the file is closed; procedures are not compiled |
| CodeGenProperties.ProgramFile | Compiler/src/ast/Program.java:95-103 | the file's first lines, all indented, `main: ` included because of its trailing space |
| CodeGenProperties.PrologueLines | Compiler/src/ast/Program.java:95-103 | the lines of codes that start with the prologue |
| CodeGenProperties.VarLineEnd | Compiler/src/ast/Program.java:99 | a data word line ends in its initial value 0 |
| CodeGenProperties.IndentedLine | Compiler/src/ast/Emitter.java:44-45 | a code not ending in ':' is written after a tab |
| CodeGenProperties.ProgramBalanced | Compiler/src/ast/Program.java:93-108 | a program that compiles pops everything it pushes |
| CodeGenProperties.ProgramStackBalanced | Compiler/src/ast/Program.java:93-108 | in the file of a program that compiles, there are as many `subu $sp $sp 4` lines as `addu $sp $sp 4` lines |
| CodeGenLabels.DefinedCounts | Compiler/src/ast/Emitter.java:42-47 | a label occurs among the label definitions as often as among the codes |
| CodeGenLabels.EmitDefines | Compiler/src/ast/Emitter.java:42-47 | `emit` adds a definition exactly when the code is a label |
| CodeGenLabels.NumberNotLabel | Compiler/src/ast/Number.java:42-45 | the text of a number never ends in ':', so `li $v0 <n>` is not a label |
| CodeGenLabels.AddressNotLabel | Compiler/src/ast/Variable.java:46-50 | `la $t1 var<name>` is not a label when the name does not end in ':' |
| CodeGenLabels.PushPopDefineNothing | Compiler/src/ast/Emitter.java:63-80 | push and pop define no label |
| CodeGenLabels.ArithDefinesNothing | Compiler/src/ast/BinOp.java:77-94 | the operator's instructions define no label |
| CodeGenLabels.ExprDefinesNothing | Compiler/src/ast/BinOp.java:71-95 | the code of an expression defines no label |
| CodeGenLabels.CondDefinesNothing | Compiler/src/ast/Condition.java:93-124 | the code of a condition defines no label |
| CodeGenLabels.AssignmentDefinesNothing | Compiler/src/ast/Assignment.java:47-52 | an assignment defines no label |
| CodeGenLabels.WritelnDefinesNothing | Compiler/src/ast/Writeln.java:41-50 | `writeln` defines no label |
| CodeGenLabels.StmtDefines | Compiler/src/ast/If.java:82-94 | the labels a statement defines are those `StmtDefs` lists, in order |
| CodeGenLabels.IfDefines | Compiler/src/ast/If.java:82-94 | so are those of an `if` |
| CodeGenLabels.IfCodeDefines | Compiler/src/ast/If.java:85-93 | the code of an `if` defines its parts' labels with `elseif<l>:` and `endif<l>:` between and after them |
| CodeGenLabels.WhileDefines | Compiler/src/ast/While.java:57-65 | so are those of a `while` |
| CodeGenLabels.WhileCodeDefines | Compiler/src/ast/While.java:60-64 | the code of a `while` defines `while<l>:`, its body's labels, then `endwhile<l>:` |
| CodeGenLabels.DeclareVarsDefinesNothing | Compiler/src/ast/Program.java:97-100 | the data words define no label |
| CodeGenLabels.PrologueDefinesNothing | Compiler/src/ast/Program.java:95-103 | the prologue defines no label, since `main: ` ends in a space |
| CodeGenLabels.StmtDefsNames | Compiler/src/ast/If.java:84-93 | the label codes are the names of the labels `StmtIds` lists |
| CodeGenLabels.StmtIdsFacts | Compiler/src/ast/If.java:84 | a statement's labels are distinct and numbered above the counter it starts from, up to that counter plus its label count |
| CodeGenLabels.NestedLabelsLater | Compiler/src/ast/While.java:59-62 | a loop's labels come first with its own number, and every label in its body has a larger one |
| CodeGenLabels.NameInjective | Compiler/src/ast/If.java:84-93 | different labels have different names |
| CodeGenLabels.NamesDistinct | Compiler/src/ast/If.java:84-93 | distinct labels give distinct names |
| CodeGenLabels.AdvanceNoWrap | Compiler/src/ast/Emitter.java:88-92 | without wrap-around, handing out `k` labels adds `k` |
| CodeGenLabels.ProgramLabelsUnique | Compiler/src/ast/Program.java:93-108 | for a program compiled from a fresh emitter, with fewer than 2^31 labels and no variable name ending in ':' (`StmtPlain`): the label lines of the file are those that `StmtIds` lists, and no label line occurs twice |
| CodeGenLabels.ColonNameScans | Compiler/src/scanner/Scanner.java:305-339 | the text `: := :;.` scans to ":", ":=", ":", ";", "EOF" |
| CodeGenLabels.ColonNameParses | Compiler/src/parser/Parser.java:113-121 | that stream parses as a program assigning the variable ":" to itself: ":" is taken as a name |
| CodeGenLabels.ColonNameRepeatsLabel | Compiler/src/ast/Variable.java:46-50 | that program compiles, within the counter's range, but is not `StmtPlain`. Its file holds the line "la $t1 var:" twice, and `emit` writes that line unindented, as a label definition |

## Left out

- Reading the input: the `InputStream` and `BufferedReader` plumbing and the printing of an `IOException` are left out. The input is a `seq<char>` and an index.
- The comment-stripping block in `nextToken` is commented out in the code, so it is not modelled.
- The fallback strings in the scanner's `catch` blocks are not modelled, because those blocks are unreachable.
- Exception classes and their message text are left out. The model has error values instead: `ScanError`, `ParseError`, `RunError`, and the `ok` flag of compiling.
- `parseNumber`, `parseBlock` and the parser's `map` field are not modelled. They are dead code: nothing calls the two methods and nothing reads the field.
- `Main`, the scanner tester and the parser tester are left out. They are drivers that open fixed files and print.
- Output files: the `PrintWriter` and the `FileWriter` are left out. The file is the `lines` field of the emitter, and closing is a flag. The ghost `codes` field records what was emitted, so that the file can be related to it.
- `System.out` in `Writeln.exec` is left out. The printed values are an output `seq<Int32>`.
- `ProcedureDeclaration.getBody` and `getParameters` are the `body` and `params` fields of the `ProcDecl` datatype. They need no member of their own.
- Semantics.Loop: runs and calls that use more fuel than given end in `OutOfFuel`. The model spends one unit per `while` iteration and per procedure call. An outcome that is not `OutOfFuel` stays the same with more fuel (`SemanticsProperties.ExecMoreFuel`, `RunMoreFuel`). So a Java run that ends has one answer for all large enough fuel, and a run that is `OutOfFuel` for every amount is one that never ends.
- Null children are not modelled: the statements always exist, and only the else branch of an `if` is optional.
- ParserObject.Parser.constructor / Scanning.Tokenize: the model scans the whole text before parsing, and the parser reads a list of tokens. Java's parser pulls each token from the scanner only when `eat` moves on, so two things differ. Scan errors are not interleaved with parse errors: for "x := 1 1 @" Java fails in `eat(";")`, while the model fails with the scan error for '@'. Text after the last token the parser reads is scanned in the model but never in Java: for "x := 1; y @" Java's `parseProgram` returns the assignment without reading '@', while the model's `Tokenize` fails. The parser itself reads nothing after the end of the program (`ParserFrame.TrailingTokensUnread`, `ParserFrame.TrailingTokensExample`).
- Decimal.ParseInt: reads ASCII digits only. `Integer.parseInt` also accepts digits of other scripts, which the scanner never produces.
- Parsing.ParseProgram: that printing a tree and parsing it again gives the same tree is not stated. The code has no printer.
- The generated MIPS code is text only; running it is not modelled, and neither is its agreement with the interpreter.
- CodeGenLabels.ProgramLabelsUnique: holds only under two assumptions. First, the counter never wraps around: there are fewer than 2^31 labels. Second, no variable name ends in ':' (`StmtPlain`). The second is not implied by the front end: the parser takes any token as a name. For example, `: := :;` puts the label line "la $t1 var:" twice in its file (`CodeGenLabels.ColonNameRepeatsLabel`).
- Parsing.ParseArgs: the comma-free layout is proved to give the same arguments only when each item, read before the next item's first token, is still that item (`ParserFrame.ArgsWithoutCommas`). Without that proviso it does not hold: after "a", the "-" of "- b" is read as a subtraction (`ParserFrame.MinusWithoutComma`).
- ParserObject.Parser.ParseNames: where the Java loop runs for ever, the method stops and answers `Diverges`, as `Parsing.ParseNames` does. The same holds for the argument loop in `ParseFactor`.
