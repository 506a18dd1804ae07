# A Lox tree-walking interpreter, modelled in Dafny

This project models the core of a C# interpreter for Lox, a small scripting
language. A program goes through four stages:

* the **scanner** turns source text into tokens;
* the **recursive-descent parser** turns tokens into statement and
  expression trees;
* the **resolver** is a static pass that keeps a stack of scopes and
  hands the interpreter a scope distance for each variable read or write;
* the **tree-walking interpreter** runs the trees against a chain of
  environments. It uses the run-time objects: environments, functions,
  classes and instances.

The model follows the code as written, including where it departs from
the usual Lox semantics (see "Behaviour of the code as written" below).

## Layout

| file | module | what it holds |
|---|---|---|
| `Ast.dfy` | `Ast` | tokens, literals, diagnostics, the expression and statement trees, size measures |
| `Scanner.dfy` | `Scanner` | the scan as functions over a `ScanState`, and the `Scanner` class whose methods are proved to compute them |
| `ScannerProperties.dfy` | `ScannerProperties` | what a scan produces |
| `Grammar.dfy` | `Grammar` | every grammar method of the parser as a function over the token list and a `PState` (cursor and diagnostics) |
| `Parser.dfy` | `Parser` | the `Parser` class; each method is proved equal to its `Grammar` function |
| `ParserProperties.dfy` | `ParserProperties` | associativity, precedence, error recovery, the `for` desugaring |
| `Resolution.dfy` | `Resolution` | the resolver as functions over an `RState` (scope stack, enclosing kinds, diagnostics, log of distances) |
| `Resolver.dfy` | `Resolver` | the `Resolver` class; each method is proved equal to its `Resolution` function |
| `ResolverProperties.dfy` | `ResolverProperties` | which distances get logged, what gets reported, and when resolution aborts |
| `Runtime.dfy` | `Runtime` | values, `LoxEnvironment` (a class over its chain of enclosing environments), `LoxFunction`, `LoxClass`, `LoxInstance`, the `get` extensions |
| `Evaluation.dfy` | `Evaluation` | the evaluator as functions over an `IState`: the environment frames innermost first, the printed lines, and the reported runtime errors |
| `Interpreter.dfy` | `Interpreter` | the `Interpreter` class (the current environment, output and errors); each method is proved equal to its `Evaluation` function; `LoxFunction.Call` |
| `InterpreterProperties.dfy` | `InterpreterProperties` | operator semantics, scoping, error propagation, parameter binding, property lookup |

Each stateful class has a specification function. Its methods are proved to
compute that function, from the old state to the new one. The properties
are then proved about the function.

Exceptions are modelled as results:

* a `ParseError` is a `thrown` flag;
* a `RuntimeError` is `Raise`;
* a `return` is a `ReturnSignal` carrying the returned value;
* any other .NET exception that escapes is a distinct fault: a `Substring`
  out of range, an index past the end, a `Dictionary.Add` of a present
  key, a `Stack.Peek` on an empty stack, a null statement, or a missing
  argument.

Floating-point numbers are `real`. The host's number-to-text conversion
(`double.ToString`) and `Double.Parse` are function parameters (`numText`
and `parse`).

## Model

| member | source | states |
|---|---|---|
| Scanner.Substring | src/Scanner.cs:107 | .NET `Substring(startIndex, length)`: defined exactly when `0 <= startIndex`, `0 <= length` and `startIndex + length` is within the text; the result has `length` characters copied from `startIndex` on |
| Scanner.AddTokenSpec | src/Scanner.cs:101-109 | adding a token leaves the cursor, line and reports alone; it succeeds iff `start + current` is within the source, and then appends exactly one token whose lexeme is the text from `start` of length `current` |
| Scanner.StringLoop | src/Scanner.cs:113-117 | the string loop stops at the first `"` at or after the cursor, or at the end of the source, and passes no quote on the way |
| Scanner.StringSpec | src/Scanner.cs:111-129 | for every input, with `e` and the line where the string loop stops: at the end of the source it reports "Unterminated string" on that line and then crashes on the `Advance` past the end, with the cursor left at the end; otherwise the cursor moves past the closing quote and the line is the loop's, and a token `String` is added, with the lexeme `Substring(start, e + 1)` and the value `Substring(start + 1, e)`, exactly when those fit the source, else `Substring(start + 1, e)` crashes |
| Scanner.DigitsEnd | src/Scanner.cs:135 | the digit loop stops at the first position whose lookahead is not a digit; everything it passes is a digit |
| Scanner.NumberEnd | src/Scanner.cs:131-146 | a number ends where the lookahead is not a digit, and everything it covers is a digit or `.`; `NumberEndIsLongestNumeral` and `LongestNumeralIsUnique` show it ends the longest number literal |
| Scanner.NumberSpec | src/Scanner.cs:131-150 | for every input, with `end` where `NumberEnd` stops: the cursor moves to `end` and nothing but the tokens changes; the token `Number` with the lexeme `Substring(start, end)` and the value `Double.Parse` gives that lexeme is added exactly when the lexeme fits the source and parses; otherwise `Substring` crashes, or, when it fits, the parse crashes on its text |
| Scanner.CommentEnd | src/Scanner.cs:66-69 | a comment loop stops only where the lookahead is `'\0'` (a NUL character or the end of the source) and passes no NUL |
| Scanner.ScanTokenSpec | src/Scanner.cs:28-99 | one `ScanToken` that completes consumes at least one character and adds at most one token, keeping the earlier ones |
| Scanner.ScanLoop | src/Scanner.cs:17-21 | the scan loop, when it completes, stops exactly at the end of the source, keeps the earlier tokens, and adds no EOF token |
| Scanner.ScanFrom | src/Scanner.cs:15-26 | the loop, then one EOF token on the final line (stated by `ScanEndsWithSingleEof`) |
| Scanner.Scan | src/Scanner.cs:4-26 | a fresh scanner run over the whole source (stated by `EmptySourceGivesEof` and `ScanEndsWithSingleEof`) |
| Scanner.SingleCharToken | src/Scanner.cs:33-52 | the ten one-character tokens of the switch (stated by `SingleCharacterIsOneToken`) |
| Scanner.OperatorPair | src/Scanner.cs:53-60 | the four operators with a two-character form (stated by `OperatorTakesEqualsGreedily`) |
| Scanner.IsBlank | src/Scanner.cs:76-80 | space, carriage return and tab (stated by `WhitespaceProducesNoToken`) |
| Scanner.Peek | src/Scanner.cs:157-162 | the character at the cursor, `'\0'` at the end (used by `CommentEnd`, `DigitsEnd` and `NumberEnd`) |
| Scanner.PeekNext | src/Scanner.cs:164-171 | the character after the cursor, `'\0'` past the end (used by `NumberEnd`) |
| Scanner.IsAtEnd | src/Scanner.cs:192-195 | the cursor has reached the end of the source (used by `ScanLoop`) |
| Scanner.IsDigit | src/Scanner.cs:151-155 | `0` to `9` only (used by `DigitsEnd` and `LongestNumeral`) |
| Scanner.Scanner.constructor | src/Scanner.cs:4-14 | a fresh scanner is at offset 0, line 1, with no tokens and no reports |
| Scanner.Scanner.Advance | src/Scanner.cs:186-189 | returns the character at the cursor and moves the cursor one place |
| Scanner.Scanner.Match | src/Scanner.cs:173-183 | consumes the next character exactly when it is the expected one and the source is not at its end |
| Scanner.Scanner.AddToken | src/Scanner.cs:101-109 | the method's effect or crash is exactly that of `AddTokenSpec` |
| Scanner.Scanner.String | src/Scanner.cs:111-129 | the loop's effect or crash is exactly that of `StringSpec`, including the report for an unterminated string and the `Advance` past the end |
| Scanner.Scanner.Number | src/Scanner.cs:131-150 | the two digit loops compute exactly `NumberSpec` |
| Scanner.Scanner.ScanToken | src/Scanner.cs:28-99 | every case of the switch computes exactly `ScanTokenSpec` |
| Scanner.Scanner.ScanTokens | src/Scanner.cs:15-26 | the main loop followed by the EOF token computes exactly `ScanFrom`, and the token list it returns is the field `tokens` |
| ScannerProperties.EmptySourceGivesEof | src/Scanner.cs:15-26 | the empty source scans to exactly one EOF token on line 1 |
| ScannerProperties.ScanEndsWithSingleEof | src/Scanner.cs:15-26 | a completed scan ends with one EOF token carrying the final line, and no earlier token is EOF |
| ScannerProperties.OperatorTakesEqualsGreedily | src/Scanner.cs:53-60 | `!`, `=`, `<`, `>` give the two-character token exactly when `=` follows, consuming both characters |
| ScannerProperties.SingleCharacterIsOneToken | src/Scanner.cs:33-52 | each of `(){},.-+;*` consumes one character and adds one token of its kind, or crashes in `Substring(start, current)`; line and reports stay |
| ScannerProperties.WhitespaceProducesNoToken | src/Scanner.cs:76-83 | blanks add nothing; a newline adds nothing and increments the line |
| ScannerProperties.CommentConsumesRestOfSource | src/Scanner.cs:61-75 | a `//` comment runs to the end of the source, not of the line, when the source has no NUL |
| ScannerProperties.NumberIsMaximalMunch | src/Scanner.cs:131-150 | a token starting with a digit is exactly the number `NumberSpec` scans after that digit, and it ends where the longest number literal there ends (digits, then at most one `.` that a digit follows, and no digit after it); `NumberSpec` states the token and the crashes |
| ScannerProperties.DigitsEndIsFirstNonDigit | src/Scanner.cs:133-135 | the digit loop stops exactly at the first position whose lookahead is not a digit |
| ScannerProperties.NumberEndIsLongestNumeral | src/Scanner.cs:131-146 | where `Number` stops is the end of a longest number literal starting at the first digit |
| ScannerProperties.LongestNumeralIsUnique | src/Scanner.cs:131-146 | conversely, any end of a longest number literal is where `Number` stops, so the scanner takes no more and no less |
| ScannerProperties.TrailingDotIsNotFraction | src/Scanner.cs:141-145 | in `12.` the number is `12` and the `.` is left unscanned |
| ScannerProperties.OtherCharacterIsReported | src/Scanner.cs:31-97 | any character the switch does not name and that is not a digit (letters and `_` included) is reported as an unexpected character on the current line and adds no token |
| ScannerProperties.LexemeIsScannedTextOnlyAtOffsetZero | src/Scanner.cs:107 | the lexeme equals the scanned text iff the token starts at offset 0 |
| ScannerProperties.SecondTokenOverrunsSource | src/Scanner.cs:107 | scanning `((` crashes in `Substring(1, 2)` after the first token |
| ScannerProperties.UnterminatedStringCrashes | src/Scanner.cs:119-125 | an unterminated string is reported, then the closing `Advance` indexes past the end |
| ScannerProperties.StringValueKeepsClosingQuote | src/Scanner.cs:127-128 | the value of `"ab"` is `ab"`, with the closing quote |
| ScannerProperties.StringValueOverrunsQuotedText | src/Scanner.cs:111-129 | for every string that scans: the loop stopped at a `"`, and the value has as many characters as the closing quote's offset, starts with the quoted text, yet is never the quoted text; at offset 0 it is the quoted text and the closing quote |
| ScannerProperties.QuotedAbIsOneToken | src/Scanner.cs:111-129 | the first token of `"ab"` is one string token spanning the whole source |
| ScannerProperties.QuotedAbString | src/Scanner.cs:111-129 | the string loop of `"ab"` stops at the closing quote and adds a token whose value is `ab"` |
| ScannerProperties.StringCountsNewlines | src/Scanner.cs:113-117 | the string loop adds one to the line count for each newline it passes |
| Grammar.AdvanceSpec | src/Parser.cs:444-452 | `Advance` moves one token forward, except at EOF, and never reports |
| Grammar.ConsumeSpec | src/Parser.cs:416-421 | `Consume` succeeds iff the next token has the kind, returning it and moving past it; otherwise it reports the message at that token and throws without moving |
| Grammar.Checks | src/Parser.cs:456-462 | `Check`: false at EOF, otherwise the next token has the kind (stated by `ConsumeSpec`) |
| Grammar.MatchAny | src/Parser.cs:465-477 | `Match`: one of the kinds is next and not at EOF (stated by `Parser.Parser.Match`) |
| Grammar.SynchronizeSpec | src/Parser.cs:485-506 | one `Advance`, as `AdvanceSpec` states; stated by `RecoveryStopsAfterOneToken` and `FailedDeclarationSkipsOneToken` |
| Grammar.ParseExpression | src/Parser.cs:313-316 | an expression either consumes at least one token or throws, and never contains a logical `and`/`or` node |
| Grammar.ParseAssignment | src/Parser.cs:249-268 | as `ParseExpression`: progress and no logical node; `AssignmentIsRightRecursive` states when it builds an `Assign` |
| Grammar.ParseOr | src/Parser.cs:271-283 | an `or` chain consumes at least one token or throws |
| Grammar.OrLoop | src/Parser.cs:275-280 | the `or` loop never moves the cursor back |
| Grammar.ParseAnd | src/Parser.cs:286-298 | an `and` chain consumes at least one token or throws |
| Grammar.AndLoop | src/Parser.cs:290-295 | the `and` loop never moves the cursor back |
| Grammar.ParseLevel | src/Parser.cs:319-373 | each binary level consumes at least one token or throws, and builds no logical node |
| Grammar.ParseOperand | src/Parser.cs:319-373 | the operand of a level is the next level down, or `Unary` below level 1; progress and no logical node |
| Grammar.LevelLoop | src/Parser.cs:319-373 | the operator loop of a level never moves back and adds no logical node |
| Grammar.ParseUnary | src/Parser.cs:375-387 | `!`/`-` prefixes then a call: progress, no logical node; `UnaryIsRightRecursive` states the tree |
| Grammar.ParseCall | src/Parser.cs:161-177 | a primary followed by argument lists: progress, no logical node; `CallLoopNestsCalls` states the tree |
| Grammar.CallLoop | src/Parser.cs:164-174 | the call loop never moves back and adds no logical node; without a `(` next it returns the callee unchanged, and with one each turn wraps the expression so far as the callee of a new `Call`, so the result is a `Call` |
| Grammar.ParseFinishCall | src/Parser.cs:179-197 | an argument list and its `)`: progress, no logical node; the result is a `Call` of the given callee whose paren is the `)` just consumed |
| Grammar.ParseArguments | src/Parser.cs:181-192 | the argument list never moves back and holds no logical node |
| Grammar.ArgsLoop | src/Parser.cs:184-191 | each turn of the argument loop adds at least one argument and keeps the earlier ones |
| Grammar.ParsePrimary | src/Parser.cs:390-414 | a literal, variable or group consumes at least one token or throws |
| Grammar.ParseGrouping | src/Parser.cs:404-410 | a parenthesized expression consumes at least one token or throws |
| Grammar.ParseDeclaration | src/Parser.cs:91-104 | a declaration never throws: a failure is caught, synchronized, and still consumes at least one token |
| Grammar.ParseStatement | src/Parser.cs:106-116 | a statement consumes at least one token or throws; an `if` built without `else` is never followed by `else` |
| Grammar.ParseBlock | src/Parser.cs:78-88 | a block consumes at least one token or throws |
| Grammar.BlockLoop | src/Parser.cs:81-84 | the block loop never throws and never moves back |
| Grammar.ParseReturnStatement | src/Parser.cs:120-130 | a `return` consumes at least one token or throws, and yields a `Return` node |
| Grammar.ParseFunction | src/Parser.cs:133-158 | a function declaration consumes at least one token or throws, and yields a `Function` node |
| Grammar.ParseParameters | src/Parser.cs:140-152 | a parameter list not starting with `)` yields at least one parameter and consumes tokens |
| Grammar.ParamsLoop | src/Parser.cs:142-151 | each turn of the parameter loop adds at least one parameter and keeps the earlier ones |
| Grammar.ParseWhileStatement | src/Parser.cs:200-209 | a `while` consumes at least one token or throws, and yields a `While` node |
| Grammar.ParseIfStatement | src/Parser.cs:213-232 | an `if` yields an `If` node; an `else` binds to the nearest `if` (dangling else) |
| Grammar.ParsePrintStatement | src/Parser.cs:234-239 | a `print` yields a `Print` node, with progress |
| Grammar.ParseExpressionStatement | src/Parser.cs:241-246 | an expression statement yields an `Expression` node, with progress |
| Grammar.ParseVarDeclaration | src/Parser.cs:301-311 | a `var` declaration yields a `Var` node, with progress |
| Grammar.DesugarFor | src/Parser.cs:561-592 | a `for` becomes a block `{init; loop}` exactly when it has an initializer, and otherwise the loop itself: a `while` on the condition, or on `true`, whose body runs the increment after the body |
| Grammar.ParseForStatement | src/Parser.cs:516-593 | a `for` consumes at least one token or throws |
| Grammar.ParseForInitializer | src/Parser.cs:520-539 | the initializer clause consumes at least one token or throws |
| Grammar.Present | src/Parser.cs:530-532 | wrapping a parsed value as present keeps its state and its success |
| Grammar.ParseForHeader | src/Parser.cs:541-559 | the condition and increment clauses, with their `;` and `)`, consume tokens or throw |
| Grammar.ParseOptionalExpression | src/Parser.cs:541-557 | a clause is absent exactly when the next token is its terminator, and then nothing is consumed |
| Grammar.ParseLoop | src/Parser.cs:67-75 | the top-level loop never throws, ends at EOF, and keeps the declarations already parsed |
| Grammar.Parse | src/Parser.cs:67-75 | the declarations and reports of a whole parse from token 0 (stated by `ParseLoop` and `Parser.Parser.Parse`) |
| Parser.Parser.constructor | src/Parser.cs:58-65 | a fresh parser is at token 0 with no reports |
| Parser.Parser.Peek | src/Parser.cs:431-434 | the token at the cursor (used by every method of the class) |
| Parser.Parser.Previous | src/Parser.cs:425-428 | the token behind the cursor (stated by `Parser.Parser.Advance`) |
| Parser.Parser.IsAtEnd | src/Parser.cs:437-441 | the token at the cursor is EOF (stated by `Parser.Parser.Advance`) |
| Parser.Parser.Check | src/Parser.cs:456-462 | false at EOF, otherwise the next token has the kind (stated by `Parser.Parser.Match` and `Parser.Parser.Consume`) |
| Parser.Parser.Advance | src/Parser.cs:444-452 | computes `AdvanceSpec` and returns the token before the new cursor |
| Parser.Parser.Match | src/Parser.cs:465-477 | advances exactly when one of the kinds is next and not at EOF |
| Parser.Parser.Consume | src/Parser.cs:416-421 | computes `ConsumeSpec` |
| Parser.Parser.Error | src/Parser.cs:479-483 | appends exactly one report at the token |
| Parser.Parser.Synchronize | src/Parser.cs:485-506 | computes `SynchronizeSpec`: one token forward |
| Parser.Parser.Parse | src/Parser.cs:67-75 | computes `ParseLoop` from the start |
| Parser.Parser.Block | src/Parser.cs:78-88 | computes `ParseBlock` |
| Parser.Parser.Declaration | src/Parser.cs:91-104 | computes `ParseDeclaration`, including the catch and the recovery |
| Parser.Parser.Statement | src/Parser.cs:106-116 | computes `ParseStatement` |
| Parser.Parser.ReturnStatement | src/Parser.cs:120-130 | computes `ParseReturnStatement` |
| Parser.Parser.Function | src/Parser.cs:133-158 | computes `ParseFunction` |
| Parser.Parser.Parameters | src/Parser.cs:140-152 | the do-while loop over parameters computes `ParseParameters`, including the report past 255 parameters |
| Parser.Parser.WhileStatement | src/Parser.cs:200-209 | computes `ParseWhileStatement` |
| Parser.Parser.IfStatement | src/Parser.cs:213-232 | computes `ParseIfStatement` |
| Parser.Parser.PrintStatement | src/Parser.cs:234-239 | computes `ParsePrintStatement` |
| Parser.Parser.ExpressionStatement | src/Parser.cs:241-246 | computes `ParseExpressionStatement` |
| Parser.Parser.VarDeclaration | src/Parser.cs:301-311 | computes `ParseVarDeclaration` |
| Parser.Parser.ForStatement | src/Parser.cs:516-593 | computes `ParseForStatement` |
| Parser.Parser.ForInitializer | src/Parser.cs:520-539 | computes `ParseForInitializer` |
| Parser.Parser.ForHeader | src/Parser.cs:541-559 | computes `ParseForHeader` |
| Parser.Parser.OptionalExpression | src/Parser.cs:541-557 | computes `ParseOptionalExpression` |
| Parser.Parser.Expression | src/Parser.cs:313-316 | computes `ParseExpression` |
| Parser.Parser.Assignment | src/Parser.cs:249-268 | computes `ParseAssignment`, including the report for an invalid target |
| Parser.Parser.Or | src/Parser.cs:271-283 | the `or` loop computes `ParseOr` |
| Parser.Parser.And | src/Parser.cs:286-298 | the `and` loop computes `ParseAnd` |
| Parser.Parser.Equality | src/Parser.cs:319-330 | the loop computes `ParseLevel` at level 4 |
| Parser.Parser.Comparison | src/Parser.cs:333-344 | the loop computes `ParseLevel` at level 3 |
| Parser.Parser.Term | src/Parser.cs:347-359 | the loop computes `ParseLevel` at level 2 |
| Parser.Parser.Factor | src/Parser.cs:361-373 | the loop computes `ParseLevel` at level 1 |
| Parser.Parser.Unary | src/Parser.cs:375-387 | computes `ParseUnary` |
| Parser.Parser.Call | src/Parser.cs:161-177 | the loop computes `ParseCall` |
| Parser.Parser.FinishCall | src/Parser.cs:179-197 | computes `ParseFinishCall` |
| Parser.Parser.Arguments | src/Parser.cs:181-192 | the do-while loop over arguments computes `ParseArguments`, including the report past 255 arguments |
| Parser.Parser.Primary | src/Parser.cs:390-414 | computes `ParsePrimary` |
| ParserProperties.LevelLoopIsLeftAssociative | src/Parser.cs:319-373 | the loop of every binary level folds to the left (`LeftAssoc`): each node it adds is an operator of that level whose right operand binds tighter, down to the operand it started from, so `a - b - c` is `(a - b) - c` |
| ParserProperties.LevelIsLeftAssociative | src/Parser.cs:319-373 | a whole level is a left fold of its operators over its first operand, which binds tighter; its root is an operator of that level or a tighter one |
| ParserProperties.OperandBindsTighter | src/Parser.cs:319-387 | the operand of a level is no binary operator of that level or a looser one |
| ParserProperties.Precedence | src/Parser.cs:319-373 | the level of an operator token: a token is an operator of a level exactly when its precedence is that level |
| ParserProperties.RightNestingIsNotLeftAssoc | src/Parser.cs:319-373 | a right-nested chain `a op (b op c)` of one level is not a left fold from `a` |
| ParserProperties.PrimaryIsWholeExpression | src/Parser.cs:313-414 | a primary followed by no operator is the whole factor and the whole expression |
| ParserProperties.PrimaryIsWholeFactor | src/Parser.cs:361-373 | a primary followed by no `(`, `/` or `*` is the whole factor |
| ParserProperties.VariableIsWholeFactor | src/Parser.cs:361-414 | an identifier followed by no `(`, `/` or `*` is a whole factor, a `Variable` node |
| ParserProperties.SubtractVariable | src/Parser.cs:347-359 | one turn of the term loop adds `- x` to the left operand |
| ParserProperties.SubtractionGroupsLeft | src/Parser.cs:347-359 | `a - b - c` parses as `(a - b) - c` |
| ParserProperties.SubtractTwoVariables | src/Parser.cs:347-359 | two turns of the term loop over `- b - c` nest the earlier subtraction on the left |
| ParserProperties.UnaryIsRightRecursive | src/Parser.cs:375-387 | for every run of `!`/`-` tokens followed by another token, the unary is the call after the run under those operators, the first outermost, or that call's throw |
| ParserProperties.CallLoopNestsCalls | src/Parser.cs:164-174 | for every input the call loop returns the callee when no `(` follows; otherwise a `Call` whose chain of callees reaches the original callee |
| ParserProperties.EmptyCallTurn | src/Parser.cs:164-197 | `()` makes one argument-less `Call` around the callee and the loop goes on after the `)` |
| ParserProperties.CallsNestToTheLeft | src/Parser.cs:161-197 | `f()()` parses as a call of the call `f()` |
| ParserProperties.LevelIsNoAssignment | src/Parser.cs:319-373 | no binary level yields an `Assign` node |
| ParserProperties.UnaryIsNoAssignment | src/Parser.cs:375-414 | no unary, call or primary yields an `Assign` or a `Binary` node |
| ParserProperties.IdentifierIsVariable | src/Parser.cs:390-414 | an identifier is parsed as a `Variable` node naming that token, and the cursor moves past it |
| ParserProperties.AssignmentIsRightRecursive | src/Parser.cs:249-268 | for every input, `Assignment` builds an `Assign` iff the equality it parsed is a variable, `=` follows and the assignment after the `=` parses; the node names that variable and holds that right side, so `a = b = c` nests to the right |
| ParserProperties.NoOperandThrows | src/Parser.cs:390-414 | a token that starts no expression is reported as "Expected expression [primary]" and the expression throws without consuming |
| ParserProperties.ExpressionsHaveNoLogical | src/Parser.cs:249-268 | `Assignment` goes through `Equality`, so no parsed expression holds an `and` or `or` node |
| ParserProperties.LogicalOperatorIsNoExpression | src/Parser.cs:249-268 | an expression starting with `and` or `or` is reported and throws |
| ParserProperties.InvalidTargetIsReported | src/Parser.cs:253-265 | `=` after something other than a variable is reported, does not throw, and yields the left-hand side |
| ParserProperties.TooManyArgumentsStillParsed | src/Parser.cs:184-191 | from the 256th argument on, each argument is reported and still added |
| ParserProperties.TooManyParametersStillParsed | src/Parser.cs:142-151 | from the 256th parameter on, each parameter is reported and still added |
| ParserProperties.FailedDeclarationSkipsOneToken | src/Parser.cs:91-104 | a failed declaration leaves `None`, and the cursor lands one token past where the statement threw |
| ParserProperties.AtomIsWholeExpression | src/Parser.cs:390-414 | a number, string or identifier followed by no operator is a whole expression |
| ParserProperties.ExpressionStatementAt | src/Parser.cs:106-116 | a statement without a statement keyword is the expression and then `;` |
| ParserProperties.MissingSemicolonThrows | src/Parser.cs:241-246 | `1 2` throws at the second number for the missing `;` |
| ParserProperties.StrayTokenThrows | src/Parser.cs:106-116 | a token that starts neither a statement nor an expression throws where it stands |
| ParserProperties.RecoveryStopsAfterOneToken | src/Parser.cs:485-506 | `1 2 ;` gives two failed declarations, because synchronizing moves only onto the `;` |
| ParserProperties.WhileRejectsParenthesis | src/Parser.cs:200-209 | `while (` is reported and throws: the condition is expected between braces |
| ParserProperties.IfStatementsComeFromIf | src/Parser.cs:106-116 | `Statement` builds an `If` node only after the `if` keyword |
| ParserProperties.ForIsNotAStatement | src/Parser.cs:106-116 | `for` and `class` are not dispatched, so a statement that starts with either throws as a missing expression |
| ParserProperties.EmptyForHeader | src/Parser.cs:541-559 | the header `;)` has no condition and no increment and consumes two tokens |
| ParserProperties.VariableStatement | src/Parser.cs:241-246 | `x;` is an expression statement holding the variable `x` |
| ParserProperties.EmptyForIsWhileTrue | src/Parser.cs:516-593 | `for (;;) x;` is `while (true) x;` |
| Resolution.Declare | src/Resolver.cs:50-62 | with no scope nothing changes; a name already in the top scope is reported and then aborts with a duplicate-key fault; otherwise the name enters the top scope as not yet defined, and the other scopes stay |
| Resolution.Define | src/Resolver.cs:64-69 | with no scope nothing changes; otherwise the top scope marks the name defined and nothing else changes |
| Resolution.BeginScope | src/Resolver.cs:33-36 | pushes an empty scope (stated by `Resolver.Resolver.BeginScope`) |
| Resolution.EndScope | src/Resolver.cs:37-40 | pops the top scope (stated by `Resolver.Resolver.EndScope`) |
| Resolution.Outermost | src/Resolver.cs:73-81 | finds the bottom-most scope holding the name, and none exactly when no scope holds it |
| Resolution.ResolveLocal | src/Resolver.cs:71-82 | only the log of distances changes |
| Resolution.ResolveExpr | src/Resolver.cs:84-277 | an expression leaves the scopes and enclosing kinds alone and only adds reports and log entries; it aborts only on an empty stack; `VariableReadChecksInnermostScope` states a variable read for every input |
| Resolution.ResolveOperands | src/Resolver.cs:91-96 | two operands in order: same guarantees as `ResolveExpr` |
| Resolution.ResolveExprs | src/Resolver.cs:106-115 | the arguments of a call in order: same guarantees as `ResolveExpr` |
| Resolution.DeclareParams | src/Resolver.cs:137-141 | declaring the parameters changes only the top scope and the reports |
| Resolution.ResolveFunction | src/Resolver.cs:131-144 | a resolved function leaves the scope stack and the function kind as they were, and logs nothing |
| Resolution.ResolveMethods | src/Resolver.cs:244-248 | resolved methods leave the scope stack and the enclosing kinds as they were |
| Resolution.ResolveStmt | src/Resolver.cs:98-253 | a resolved statement keeps the enclosing kinds and leaves the stack one scope deeper for each class it declares outside a function body |
| Resolution.ResolveVar | src/Resolver.cs:213-223 | a `var` statement keeps the stack depth and the enclosing kinds; `VarDeclaresResolvesThenDefines` states the declare, initializer, define order for every input |
| Resolution.ResolveFunctionDecl | src/Resolver.cs:123-129 | a resolved function declaration keeps the stack depth and the enclosing kinds |
| Resolution.ResolveReturn | src/Resolver.cs:178-191 | a `return` keeps the scopes and the enclosing kinds |
| Resolution.ResolveClass | src/Resolver.cs:232-253 | a resolved class leaves one new scope, holding only the class name and `this`, both defined, on top of the old stack; it aborts iff the class is named `this` or a method aborts |
| Resolution.ClassScope | src/Resolver.cs:232-242 | the state in which the methods are resolved: inside a class, with a new scope holding the class name and `this` (stated by `ResolveClass` and `EmptyClass`) |
| Resolution.ResolveList | src/Resolver.cs:42-48 | a resolved list keeps the enclosing kinds and deepens the stack by one per class declared |
| Resolver.Resolver.constructor | src/Resolver.cs:4-9 | a fresh resolver has an empty stack, no enclosing function or class, and no reports |
| Resolver.Resolver.BeginScope | src/Resolver.cs:33-36 | pushes an empty scope |
| Resolver.Resolver.EndScope | src/Resolver.cs:37-40 | pops the top scope |
| Resolver.Resolver.Declare | src/Resolver.cs:50-62 | computes `Resolution.Declare` |
| Resolver.Resolver.Define | src/Resolver.cs:64-69 | computes `Resolution.Define` |
| Resolver.Resolver.ResolveLocal | src/Resolver.cs:71-82 | the downward loop over the stack computes `Resolution.ResolveLocal` |
| Resolver.Resolver.ResolveExpr | src/Resolver.cs:84-277 | each expression visitor computes `Resolution.ResolveExpr` |
| Resolver.Resolver.VisitVariable | src/Resolver.cs:199-211 | peeking at the top scope and the report for a read in the variable's own initializer compute `ResolveExpr` |
| Resolver.Resolver.VisitCall | src/Resolver.cs:106-115 | the loop over the arguments computes `ResolveExpr` |
| Resolver.Resolver.ResolveList | src/Resolver.cs:42-48 | the loop over the statements computes `Resolution.ResolveList` |
| Resolver.Resolver.ResolveStmt | src/Resolver.cs:98-253 | each statement visitor computes `Resolution.ResolveStmt` |
| Resolver.Resolver.VisitVar | src/Resolver.cs:213-223 | computes `ResolveVar` |
| Resolver.Resolver.VisitIf | src/Resolver.cs:152-158 | computes `ResolveStmt` on an `if` |
| Resolver.Resolver.VisitFunction | src/Resolver.cs:123-129 | computes `ResolveFunctionDecl` |
| Resolver.Resolver.VisitReturn | src/Resolver.cs:178-191 | computes `ResolveReturn` |
| Resolver.Resolver.ResolveFunction | src/Resolver.cs:131-144 | the parameter loop, with the enclosing function kind saved and restored, computes `Resolution.ResolveFunction` |
| Resolver.Resolver.VisitClass | src/Resolver.cs:232-253 | the method loop computes `Resolution.ResolveClass` |
| ResolverProperties.ResolveLocalLogsOutermost | src/Resolver.cs:71-82 | `ResolveLocal` logs exactly one distance iff some scope holds the name; the distance `d` names scope `n - 1 - d`, the bottom-most one holding the name |
| ResolverProperties.InnermostNameLoggedAtStackHeight | src/Resolver.cs:71-82 | a name held only by the top scope is logged at distance `n - 1`, not 0 |
| ResolverProperties.TopLevelReadAborts | src/Resolver.cs:199-202 | a variable read at the top level of a program makes `Peek` throw on the empty stack |
| ResolverProperties.VariableReadChecksInnermostScope | src/Resolver.cs:199-211 | for every input, a variable read aborts iff the stack is empty; otherwise it reports the own-initializer message iff the name is absent from the top scope or not yet defined there, leaves the scopes alone, and logs what `ResolveLocal` logs |
| ResolverProperties.VarDeclaresResolvesThenDefines | src/Resolver.cs:213-223 | for every input, a `var` with an initializer declares the name, resolves the initializer with the name declared but undefined, then defines it; a redeclaration aborts before the initializer; with no scope only the initializer is resolved |
| ResolverProperties.OwnInitializerReadIsReported | src/Resolver.cs:199-223 | with any non-empty stack, `var a = a;` for a name new to the top scope reports the read in its own initializer |
| ResolverProperties.OwnInitializerIsReported | src/Resolver.cs:199-223 | `{ var a = a; }` reports the read in its own initializer and still logs it |
| ResolverProperties.RedeclarationReportsThenAborts | src/Resolver.cs:50-62 | `{ var a; var a; }` reports the redeclaration and then aborts on the duplicate key |
| ResolverProperties.DuplicateParameterAborts | src/Resolver.cs:131-144 | a repeated parameter aborts with the function's scope still pushed and the function kind still set |
| ResolverProperties.FunctionBodyIsNotResolved | src/Resolver.cs:131-144 | resolving a function depends on its name and parameters only, never its body |
| ResolverProperties.ClassInBlockLeavesBlockScope | src/Resolver.cs:98-104 | `{ class A {} }` leaves the stack one scope deeper than before |
| ResolverProperties.EmptyClass | src/Resolver.cs:232-253 | an empty class pushes a scope holding its name and `this` and keeps it |
| ResolverProperties.ClassNamedThisAborts | src/Resolver.cs:238-242 | a class named `this` aborts when `this` is added to its scope |
| ResolverProperties.RightOperandIsLoggedFirst | src/Resolver.cs:91-96 | in `a op b` the right operand's distance is logged before the left's |
| ResolverProperties.DefinedVariableIsLogged | src/Resolver.cs:199-211 | a read of a name defined in the only scope reports nothing and logs distance 0 |
| ResolverProperties.ThisOutsideClassIsReported | src/Resolver.cs:268-277 | `this` outside a class is reported and resolution goes on |
| ResolverProperties.ReturnReportsOnlyInInitializer | src/Resolver.cs:178-191 | a returned value is reported exactly when the enclosing function kind is initializer |
| ResolverProperties.ExprReportsAreNotAboutReturns | src/Resolver.cs:84-277 | no report made while resolving an expression is the initializer-return report |
| ResolverProperties.NoReturnReportsTransitive | src/Resolver.cs:84-277 | reports that are not about returns chain over consecutive steps |
| ResolverProperties.StmtReportsAreNotAboutReturns | src/Resolver.cs:98-253 | outside an initializer, resolving a statement only appends reports, and none of them is the initializer-return report |
| ResolverProperties.ListReportsAreNotAboutReturns | src/Resolver.cs:42-48 | the same for a statement list |
| ResolverProperties.ProgramNeverReportsReturns | src/Resolver.cs:42-48 | a whole resolution, which starts outside any function, never makes the initializer-return report |
| ResolverProperties.ParamsReportsAreNotAboutReturns | src/Resolver.cs:131-144 | declaring parameters only appends duplicate reports, none about returns |
| ResolverProperties.FunctionReportsAreNotAboutReturns | src/Resolver.cs:131-144 | resolving a function, of any kind, makes no initializer-return report |
| ResolverProperties.MethodsReportsAreNotAboutReturns | src/Resolver.cs:232-253 | resolving a class's methods makes no initializer-return report |
| ResolverProperties.OperandReportsAreNotAboutReturns | src/Resolver.cs:91-96 | as above, for two operands |
| ResolverProperties.ArgsReportsAreNotAboutReturns | src/Resolver.cs:106-115 | as above, for call arguments |
| Runtime.Lookup | src/LoxEnvironment.cs:26-34 | a name is found iff some frame of the chain holds it, and its value comes from a frame that holds it (the innermost) |
| Runtime.LiteralValue | src/Interpreter.cs:99-102 | the value a literal node holds (stated by `Interpreter.Interpreter.Evaluate`) |
| Runtime.GetOrNil | src/Extensions.cs:7-14 | a present key gives its value; a missing key gives nil |
| Runtime.DepthOf | src/Extensions.cs:15-23 | a present node gives its distance; a missing one gives none |
| Runtime.LoxEnvironment.constructor | src/LoxEnvironment.cs:13 | a global environment is empty and encloses nothing |
| Runtime.LoxEnvironment.Enclosed | src/LoxEnvironment.cs:9-12 | a new environment is empty and its chain is itself followed by the enclosing chain |
| Runtime.LoxEnvironment.Frames | src/LoxEnvironment.cs:6-7 | frame `i` is the map of the `i`-th environment of the chain, this one first |
| Runtime.LoxEnvironment.Define | src/LoxEnvironment.cs:15-24 | the key is bound to the value in this environment only, and a duplicate is signalled exactly when the key was already present |
| Runtime.LoxEnvironment.Get | src/LoxEnvironment.cs:26-34 | the value is `Lookup` over the chain; a missing name is a runtime error "Undefined variable '...'" |
| Runtime.LoxEnvironment.Assign | src/LoxEnvironment.cs:36-44 | succeeds iff this environment holds the name, and then rebinds it here; otherwise a runtime error "Undefined variable ..." and nothing changes; enclosing environments are never touched |
| Runtime.LoxEnvironment.Ancestor | src/LoxEnvironment.cs:46-55 | `distance` steps out is the `distance`-th environment of the chain, null just past the end, and a null dereference further out |
| Runtime.LoxEnvironment.ChainStep | src/LoxEnvironment.cs:46-55 | one step out of the `i`-th environment lands on the `(i+1)`-th, which carries the rest of the chain |
| Runtime.LoxEnvironment.ChainSuffixes | src/LoxEnvironment.cs:6-7 | every environment of the chain carries the rest of the chain, and the chain has no repeats |
| Runtime.LoxEnvironment.GetAt | src/LoxEnvironment.cs:57-62 | reads the name in frame `distance`, nil when missing; faults iff the distance is past the chain |
| Runtime.LoxEnvironment.AssignAt | src/LoxEnvironment.cs:64-68 | writes the name into frame `distance` and changes no other frame; faults iff the distance is past the chain, and then changes nothing |
| Runtime.LoxFunction.constructor | src/LoxFunction.cs:5-8 | a function holds its declaration and its closure |
| Runtime.LoxClass.constructor | src/LoxClass.cs:6-9 | a class holds its name and its methods |
| Runtime.LoxClass.FindMethod | src/LoxClass.cs:36-44 | a method is found iff the class declares it, and it is that method |
| Runtime.LoxClass.Arity | src/LoxClass.cs:15-24 | a class takes as many arguments as its initializer, or none without one |
| Runtime.LoxClass.Call | src/LoxClass.cs:26-34 | a call makes a fresh instance of this class with no fields, and names the initializer to bind and call |
| Runtime.Property | src/LoxInstance.cs:13-30 | a field wins; otherwise a method bound to the instance; absent iff neither exists |
| Runtime.LoxInstance.constructor | src/LoxInstance.cs:4-7 | a new instance belongs to its class and has no fields |
| Runtime.LoxInstance.Get | src/LoxInstance.cs:13-30 | the value is `Property`; a missing property is a runtime error "Undefined property ..." |
| Runtime.LoxInstance.Set | src/LoxInstance.cs:31-34 | the field is bound to the value and no other field changes |
| Runtime.Text | src/LoxFunction.cs:34-37 | `ToString` of a value: `<fn name>` for a function, the name for a class, `name instance` for an instance (LoxClass.cs:10-13, LoxInstance.cs:8-11); stated by `ObjectsShowTheirNames` |
| Evaluation.Evaluate | src/Interpreter.cs:34-152 | evaluating an expression changes only the values of names already in the current environment; the enclosing environments, the output and the errors stay as they are |
| Evaluation.Truthy | src/Interpreter.cs:157-163 | only nil and `false` are falsy (stated by `OnlyNilAndFalseAreFalsy`) |
| Evaluation.IsEqual | src/Interpreter.cs:165-171 | nil equals only nil, otherwise value equality (stated by `EqualityOperators`) |
| Evaluation.Stringify | src/Interpreter.cs:185-201 | how `print` shows a value (stated by `StringifyDropsPointZero`, `StringifyOtherValues` and `ObjectsShowTheirNames`) |
| Evaluation.NumberOperands | src/Interpreter.cs:179-183 | both operands must be numbers (stated by `NumericOperatorsNeedNumbers`) |
| Evaluation.BinaryOp | src/Interpreter.cs:34-92 | the binary operators on values (stated by `PlusAddsOrInterpolates`, `NumericOperatorsNeedNumbers` and `EqualityOperators`) |
| Evaluation.UnaryOp | src/Interpreter.cs:104-117 | the unary operators on values (stated by `UnaryOperators`) |
| Evaluation.DefineInnermost | src/LoxEnvironment.cs:15-24 | `Define` on the current environment, overwriting and then faulting on a present name (stated by `RedefinitionThrows` and `Interpreter.Interpreter.VisitVar`) |
| Evaluation.AssignInnermost | src/Interpreter.cs:208-213 | an assignment changes only a value of the current environment |
| Evaluation.Execute | src/Interpreter.cs:21-32 | a statement changes only the current environment and appends to the output; the enclosing environments and the errors stay |
| Evaluation.ExecuteVar | src/Interpreter.cs:124-135 | a `var` statement keeps the same guarantees as `Execute` |
| Evaluation.ExecuteBlock | src/Interpreter.cs:221-236 | after a block, however it ends, the environment chain is exactly the one before it; output only grows; errors stay |
| Evaluation.ExecuteList | src/Interpreter.cs:227-230 | a statement list keeps the guarantees of `Execute` |
| Evaluation.Interpret | src/Interpreter.cs:7-19 | a program completes iff its statements complete or stop on a runtime error, which is then reported; the chain keeps its length |
| Evaluation.BindParams | src/LoxFunction.cs:16-20 | a successful binding keeps the entries already bound and binds every remaining parameter |
| Evaluation.CallFunction | src/LoxFunction.cs:14-32 | a call leaves the caller's environment chain as it was, only appends to the output, and reports no error |
| Interpreter.Interpreter.constructor | src/Interpreter.cs:6 | a fresh interpreter has one empty global environment, no output and no errors |
| Interpreter.Interpreter.Evaluate | src/Interpreter.cs:148-152 | dispatch over the expression visitors computes `Evaluation.Evaluate` on the interpreter's state |
| Interpreter.Interpreter.VisitVariable | src/Interpreter.cs:119-122 | `env.Get` computes the variable case of `Evaluation.Evaluate` |
| Interpreter.Interpreter.VisitAssign | src/Interpreter.cs:208-213 | evaluating the value then `env.Assign` computes the assignment case |
| Interpreter.Interpreter.Apply | src/Interpreter.cs:34-117 | an operator outcome becomes the value or the raised error |
| Interpreter.Interpreter.VisitBinary | src/Interpreter.cs:34-92 | left operand, right operand, then the operator, as `Evaluation.Evaluate` |
| Interpreter.Interpreter.VisitLogical | src/Interpreter.cs:253-274 | the short-circuit computes the logical case |
| Interpreter.Interpreter.Execute | src/Interpreter.cs:203-206 | dispatch over the statement visitors computes `Evaluation.Execute`, and the current environment is the same object afterwards |
| Interpreter.Interpreter.VisitVar | src/Interpreter.cs:124-135 | `env.Define` of nil or of the initializer's value computes `ExecuteVar`, a redefinition included |
| Interpreter.Interpreter.VisitBlock | src/Interpreter.cs:215-219 | a new environment enclosed by the current one, then `ExecuteBlock`, computes the block case |
| Interpreter.Interpreter.VisitIf | src/Interpreter.cs:238-251 | computes the `if` case |
| Interpreter.Interpreter.ExecuteList | src/Interpreter.cs:227-230 | the loop over the statements computes `Evaluation.ExecuteList` and stops at the first statement that does not complete |
| Interpreter.Interpreter.ExecuteBlock | src/Interpreter.cs:221-236 | with the given environment current, the loop computes `Evaluation.ExecuteBlock`, and the previous environment is restored however the loop ends |
| Interpreter.Interpreter.Interpret | src/Interpreter.cs:7-19 | computes `Evaluation.Interpret`: a runtime error is appended to the errors and ends the run |
| Interpreter.Interpreter.CallFunction | src/LoxFunction.cs:14-32 | binding the arguments in a new environment over the closure, then running the body, computes `Evaluation.CallFunction` |
| Interpreter.DefineParameters | src/LoxFunction.cs:16-20 | the loop of `env.Define` calls computes `BindParams` from an empty frame |
| InterpreterProperties.OnlyNilAndFalseAreFalsy | src/Interpreter.cs:157-163 | a value is falsy iff it is nil or `false` |
| InterpreterProperties.EqualityOperators | src/Interpreter.cs:165-171 | `==` is value equality, symmetric, and `!=` is its negation |
| InterpreterProperties.PlusAddsOrInterpolates | src/Interpreter.cs:60-75 | `+` adds two numbers; otherwise, with a string on either side, it concatenates the operands' text; it throws iff neither holds |
| InterpreterProperties.InterpolationOfNilAndBooleans | src/Interpreter.cs:64-70 | a string plus nil is the string; a string plus `true` appends `True` |
| InterpreterProperties.NumericOperatorsNeedNumbers | src/Interpreter.cs:34-92 | `-`, `*`, `/` and the comparisons throw "Operands must be numbers" unless both operands are numbers, and `/` by zero throws "Zero Division" |
| InterpreterProperties.UnaryOperators | src/Interpreter.cs:104-117 | unary `-` negates a number and throws otherwise; `!` is the negated truthiness |
| InterpreterProperties.StringifyDropsPointZero | src/Interpreter.cs:185-201 | a number whose text ends in `.0` prints without it |
| InterpreterProperties.StringifyOtherValues | src/Interpreter.cs:185-201 | nil prints `nil`, booleans `True`/`False`, strings as they are |
| InterpreterProperties.ObjectsShowTheirNames | src/LoxFunction.cs:34-37 | functions print as `<fn name>`, classes as their name and instances as `name instance` (LoxClass.cs:10-13, LoxInstance.cs:8-11), and a string plus any such value appends that text |
| InterpreterProperties.LeftOperandFirst | src/Interpreter.cs:34-40 | a failing left operand ends a binary expression before the right one runs |
| InterpreterProperties.LogicalShortCircuits | src/Interpreter.cs:253-274 | `or` returns a truthy left operand and `and` a falsy one without evaluating the right; otherwise the right operand is the result |
| InterpreterProperties.AssignThenRead | src/Interpreter.cs:119-122 | an assignment yields the assigned value, and a read of the same name then gives it back |
| InterpreterProperties.WhileRunsBodyOnce | src/Interpreter.cs:276-284 | a `while` runs its body exactly once and never evaluates its condition |
| InterpreterProperties.IfRunsOneBranch | src/Interpreter.cs:238-251 | an `if` runs the then-branch iff the condition is truthy, the else-branch otherwise, and nothing without one |
| InterpreterProperties.BlockRestoresEnvironment | src/Interpreter.cs:215-236 | a block leaves the environment chain as it found it |
| InterpreterProperties.BlockVariableDoesNotLeak | src/Interpreter.cs:215-236 | after `{ var a = 1; }`, `print a;` raises "Undefined variable 'a'" |
| InterpreterProperties.AssignmentInBlockNeverReachesOuterVariable | src/LoxEnvironment.cs:36-44 | `{ a = 1; }` raises "Undefined variable a" even when an outer environment holds `a` |
| InterpreterProperties.RedefinitionThrows | src/LoxEnvironment.cs:15-24 | `var a; var a;` overwrites `a` with nil and then ends with the duplicate-key fault |
| InterpreterProperties.ExecuteListAppend | src/Interpreter.cs:227-230 | running `p + q` is running `p`, then `q` if `p` completed |
| InterpreterProperties.InterpretStopsAtFirstError | src/Interpreter.cs:7-19 | a program stops at its first runtime error: later statements do not run, the error is reported, and earlier output is kept |
| InterpreterProperties.BindingIsPositional | src/LoxFunction.cs:16-20 | binding succeeds iff there are enough arguments and the parameter names are distinct and fresh; parameter `k` is bound to argument `k`, and earlier bindings are kept |
| InterpreterProperties.MissingArgumentIsFirstUnmatched | src/LoxFunction.cs:17-19 | with too few arguments, the binding fails on the first parameter without an argument |
| InterpreterProperties.CallValue | src/LoxFunction.cs:22-31 | a call's value is what the body's `return` signalled, or nil when the body runs off its end; the caller's environment is restored |
| InterpreterProperties.TooFewArgumentsThrow | src/LoxFunction.cs:17-19 | a call with fewer arguments than parameters faults before the body runs and changes nothing |
| InterpreterProperties.FieldReadsBackAndShadowsMethod | src/LoxInstance.cs:13-34 | a field set on an instance reads back, hiding a method of the same name |
| InterpreterProperties.MethodIsBoundToInstance | src/LoxInstance.cs:23-26 | with no field of that name, a property is the class's method bound to the instance |

## Left out

- `Program.cs` (file and prompt input, the exit codes) and `Lox.Error`/`Lox.RuntimeError` are host code. Diagnostics and runtime errors are collected in sequences instead.
- Console output is modelled as a sequence of printed lines.
- The `clock` native function is not part of this model: it reads the wall clock.
- `Accept` and the visitor interfaces are not modelled: each visitor dispatch is a `match` on the node.
- The evaluator's visitors for `Call`, `Get`, `Set` and `This` expressions and for `Function` and `Class` statements are not part of the source and are not modelled. Evaluating or executing one ends with `Unmodelled`.
- The `Return` exception is not part of the source either. A `return` statement is modelled as a signal carrying the evaluated value (nil without one), which `CallFunction` catches.
- `LoxFunction.Bind` is not part of the source. The value of a bound method is `BoundMethod(f, instance)`, standing for `f.Bind(instance)`. Two bound methods compare equal when their function and instance are the same, whereas `Bind` would make a new object each time.
- `Interpreter.Resolve` is not part of the source. The resolver's output is the sequence of `(node, distance)` pairs it would be given. No caller in the source runs the resolver, and the evaluator never reads a distance, so the two passes stay unconnected.
- Interpreter.Interpreter.CallFunction: the only caller of `LoxFunction.Call` is a `Call` visitor that is not part of the source. So this method stands alone, and `Evaluation.Evaluate` never reaches it.
- Runtime.LoxClass.Call: the initializer is named but not bound and called, because `Bind` and the call protocol are not part of the source.
- Runtime.LoxFunction.Arity: no contract beyond its definition. It is the parameter count, and `LoxClass.Arity` states what depends on it.
- The source text is a sequence of Unicode scalar values (`string` is `seq<char>`), not of .NET UTF-16 code units. A character outside the Basic Multilingual Plane is one character here and two code units in the original, so for such text the number of "Unexpected character" reports, the `Substring` offsets and the offsets at which `Substring` fails differ from the original's.
- Numbers are `real`, not IEEE doubles, so there is no rounding, NaN or infinity. The host's number-to-text conversion and `Double.Parse` are parameters, and a parse failure is a crash.
- Parser.Parser.constructor: requires a non-empty token list whose last token is EOF, as the scanner produces. The parser indexes past the end of a list without a final EOF.
- Grammar.ParseExpression, Grammar.ParseStatement and the other grammar functions state that each call makes progress, and state the kind of node built. The exact tree built is stated only by the lemmas of `ParserProperties`, for the inputs listed there.
- ParserProperties.TooManyArgumentsStillParsed and ParserProperties.TooManyParametersStillParsed: state that the list grows and the report is made only for a list that already holds at least 255 entries. They do not state the report's text.
- Grammar.ParseForStatement: `ForStatement` is never called by `Statement`, so it is modelled and its desugaring proved, but no parse reaches it.

## Behaviour of the code as written

These are places where the code differs from the usual Lox semantics. The
model keeps the code's behaviour, and a lemma exhibits each one.

- The scanner builds each lexeme with `Substring(start, current)`, a length where an end offset was meant. A token gets its scanned text only when it starts at offset 0. Scanning `((` crashes, and a string literal's value is never its quoted text: it runs on past the closing quote, and keeps that quote at offset 0 (`LexemeIsScannedTextOnlyAtOffsetZero`, `SecondTokenOverrunsSource`, `StringValueKeepsClosingQuote`, `StringValueOverrunsQuotedText`).
- The scanner has no identifiers or keywords: letters are reported as unexpected characters (`OtherCharacterIsReported`).
- A `//` comment runs to the end of the source rather than the end of the line (`CommentConsumesRestOfSource`).
- An unterminated string is reported, and then the next `Advance` indexes past the end (`UnterminatedStringCrashes`).
- The parser's `Expression` goes straight to `Equality`, so `and` and `or` are never parsed (`ExpressionsHaveNoLogical`).
- `Statement` does not dispatch `for` or `class` (`ForIsNotAStatement`).
- A `while` condition is expected between braces (`WhileRejectsParenthesis`).
- `Synchronize` moves one token forward (`RecoveryStopsAfterOneToken`).
- The resolver's `ResolveLocal` scans the stack from the bottom. It finds the outermost scope holding the name, and logs the distance counted from the bottom (`ResolveLocalLogsOutermost`, `InnermostNameLoggedAtStackHeight`).
- Reading a variable peeks at the top scope before checking that one exists, so a top-level read aborts (`TopLevelReadAborts`).
- A duplicate declaration is reported, then aborts on `Dictionary.Add` (`RedeclarationReportsThenAborts`).
- A class scope is never popped (`ClassInBlockLeavesBlockScope`).
- Function bodies are never resolved, and methods are resolved as methods, never as initializers. So the initializer-return report never fires over a whole resolution (`FunctionBodyIsNotResolved`, `ReturnReportsOnlyInInitializer`, `StmtReportsAreNotAboutReturns`, `ProgramNeverReportsReturns`).
- `while` tests the condition node itself, which is neither null nor a boolean. So its body runs exactly once and the condition is never evaluated (`WhileRunsBodyOnce`).
- `LoxEnvironment.Define` overwrites a present key and then throws on `Add` (`RedefinitionThrows`).
- `Assign` looks only at the current environment (`AssignmentInBlockNeverReachesOuterVariable`).
- Booleans print and interpolate as `True`/`False`, and nil interpolates as the empty string (`StringifyOtherValues`, `InterpolationOfNilAndBooleans`).
