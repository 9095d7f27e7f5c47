# Edust front end in Dafny

This project models the front end of Edust, a compiler for a small imperative
language of integer functions. The language has `func`, `let`, assignment,
`if`/`else`, `while`, `return`, calls and the built-in `print`. Three stages are
modelled, each as the class the compiler uses and a set of functions that
specify it:

- **Lexer** (`src/lexer.rs`). A class whose methods move a cursor (position,
  line, column) over the input. Each method is proved to compute a pure
  function of `LexerSpec`. `LexerProperties` proves these facts about those
  functions:
  - the token list ends with exactly one `Eof`;
  - every token carries the line and column of its first character, computed
    independently by counting newlines;
  - comparison operators are matched greedily;
  - the exact error conditions;
  - keywords are recognised;
  - any lexable sequence of tokens, spelled out, lexes back to itself.
- **Parser** (`src/parser.rs`). A recursive-descent class with one method per
  precedence level, from `parse_logic_or` down to `parse_primary`. Each method
  is proved to agree with a function of `ParserSpec`. Those functions are
  proved to invert a token printer:
  - parsing the printed tokens of any expression gives the expression back
    (`ExprRoundTrip`). This fixes precedence and left associativity.
  - parsing the printed tokens of any program gives the program back
    (`ParseRoundTrip`).
  - Examples pin down precedence, associativity, unary operators,
    parentheses and the errors for trailing commas.
  - `ParserErrors` states, for every token list, each way a function, a
    block or a statement is rejected, with the error and the token it is
    reported at.
- **Semantic analyzer** (`src/semantic.rs`). A class holding the function
  table and the stack of scopes, updated in place.
  - Each method is proved to compute a function of `SemanticSpec`, including
    the state the analyzer is left in after an error.
  - `SemanticProperties` gives a declarative reference: which names are
    visible, which are in the innermost scope, and which functions the program
    defines. It proves that each checking function succeeds exactly when the
    reference holds. `AnalyzeIff` ties the whole analysis to `ProgramOk`.
  - `SemanticExamples` states what a new analyzer returns for small programs,
    down to the final state.

`Ast` (`src/ast.rs`) and `Tokens` (`src/token.rs`) hold the shared data types.
`FrontEnd` shows that every token list the lexer produces is an input the
parser accepts.

Some of the code's behaviour is stated here directly, because it is more
specific than a summary of the language would suggest:
- A missing `main` and a `main` with parameters are reported as two different errors.
- The signature table stores only a parameter count, not the parameter names.
- A repeated parameter name is its own error.
- A user function named `print` cannot be called with any arity but one.
- `check` in the parser compares token variants only, so `Ident("x")` and `Ident("y")` count as the same kind (`Tokens.SameVariant`).

## Model

| member | source | states |
|---|---|---|
| Ast.Program.New | src/ast.rs:95-99 | a new program has no functions |
| Ast.Program.AddFunction | src/ast.rs:101-103 | the function is appended last; the program is one longer; earlier functions keep their places |
| Ast.Block.New | src/ast.rs:107-111 | a new block has no statements |
| Ast.Block.AddStatement | src/ast.rs:113-115 | the statement is appended last; earlier statements keep their places |
| Lexer.Lexer.constructor | src/lexer.rs:11-18 | the lexer starts at position 0, line 1, column 1 |
| Lexer.Lexer.IsAtEnd | src/lexer.rs:231-233 | true exactly when the position is at or past the end of the input |
| Lexer.Lexer.CurrentChar | src/lexer.rs:216-222 | the character at the position, or `'\0'` past the end |
| Lexer.Lexer.Advance | src/lexer.rs:224-229 | moves one character and one column on, except at the end |
| Lexer.Lexer.SkipWhitespace | src/lexer.rs:201-214 | the cursor ends where `LexerSpec.SkipWhitespace` says: past blanks, with a newline adding a line and resetting the column |
| Lexer.Lexer.ReadNumber | src/lexer.rs:161-173 | consumes the maximal run of digits; yields their i64 value, or an invalid-number error at the start position |
| Lexer.Lexer.ReadIdentifier | src/lexer.rs:175-199 | consumes the maximal run of identifier characters and yields the keyword or identifier they spell |
| Lexer.Lexer.AdvancePast | src/lexer.rs:95-97 | steps past the first character, and past the second only when it is the expected one |
| Lexer.Lexer.ReadComparison | src/lexer.rs:93-128 | `= ! < >` yield the two-character operator when `=` follows, else the one-character token, as `ScanToken` defines |
| Lexer.Lexer.ReadLogical | src/lexer.rs:130-146 | `&&` and `\|\|` yield their operator; a single `&` or `\|` is an unexpected-character error at its position, with the cursor one character on |
| Lexer.Lexer.NextToken | src/lexer.rs:38-159 | the result and the new cursor are those of `LexerSpec.NextToken` from the old cursor; after an error the cursor is at `LexerSpec.ErrorEnd` on the same line |
| Lexer.Lexer.Tokenize | src/lexer.rs:20-36 | the result is `LexerSpec.LexFrom` from the cursor it started at, and the cursor ends at `LexerSpec.LexStop`; on success at the end of the input, with the last token `Eof` at the cursor's line and column |
| LexerSpec.CharAt | src/lexer.rs:216-222 | the character at a position, `'\0'` past the end |
| LexerSpec.SkipWhitespace | src/lexer.rs:201-214 | everything skipped is whitespace, and the stop is at the end or at a non-whitespace character |
| LexerSpec.ParseI64 | src/lexer.rs:161-173 | succeeds exactly on a non-empty digit string whose value fits in i64, and then gives that value |
| LexerSpec.ScanToken | src/lexer.rs:38-159 | a scanned token is never `Eof`, consumes at least one character and never a newline |
| LexerSpec.NextToken | src/lexer.rs:38-159 | a token always moves the cursor forward within the input |
| LexerProperties.LexEndsWithEof | src/lexer.rs:20-36 | a successful token list is non-empty, ends with `Eof`, and has no other `Eof` |
| LexerProperties.LexStopAtEof | src/lexer.rs:23-29 | after a successful `tokenize` the cursor is at the end of the input and the final `Eof` token carries its line and column |
| LexerProperties.SkipTracks | src/lexer.rs:201-214 | skipping whitespace from a cursor whose line and column are the counted ones lands on the counted line and column |
| LexerProperties.NextTracks | src/lexer.rs:38-159 | a token, or an error, is stamped with the counted line and column of its first character |
| LexerProperties.TokenPositions | src/lexer.rs:20-36 | each token starts at a strictly later non-blank position, scans to its own kind there, and carries that position's line and column; an error is reported at the position where scanning failed |
| LexerProperties.GreedyOperators | src/lexer.rs:93-128 | no `=`, `!`, `<` or `>` token is followed by `=` in the input, so operators are matched greedily |
| LexerProperties.ScanErrors | src/lexer.rs:130-158 | scanning fails exactly at a lone `&` or `\|`, a number above the i64 range, or a character no token starts with; the error kind is invalid number for digits and unexpected character otherwise |
| LexerProperties.ScanNumbers | src/lexer.rs:161-173 | a number token is the decimal value of the maximal digit run when it fits in i64, and an invalid-number error otherwise |
| LexerProperties.KeywordsExactly | src/lexer.rs:175-199 | a word is an identifier exactly when it is none of the six keywords; an identifier keeps the word as its name |
| LexerProperties.LexLayout | src/lexer.rs:20-36 | lexing the spelled-out text of any lexable token kinds gives back those kinds followed by `Eof`, provided adjacent words are separated |
| LexerProperties.BasicTokensExample | src/lexer.rs:241-249 | `func main() { let x = 42; }` lexes to `func`, `main`, `(`, `)`, `{`, `let`, `x`, `=`, `42`, `;`, `}`, Eof |
| LexerProperties.OperatorsExample | src/lexer.rs:252-260 | the fourteen operators separated by spaces lex to their fourteen kinds, then Eof |
| FrontEnd.LexedTokensAreParsable | src/lexer.rs:26-28 | every token list the lexer produces is non-empty and ends with `Eof`, which is what the parser requires |
| Parser.Parser.constructor | src/parser.rs:10-12 | the cursor starts on the first token |
| Parser.Parser.CurrentToken | src/parser.rs:398-400 | the token under the cursor |
| Parser.Parser.IsAtEnd | src/parser.rs:415-417 | true exactly when the current token is `Eof` |
| Parser.Parser.Check | src/parser.rs:402-407 | true exactly when the current token is not `Eof` and is of the same variant as the given kind (fields are not compared) |
| Parser.Parser.Advance | src/parser.rs:409-413 | moves one token on, except on `Eof` |
| Parser.Parser.Expect | src/parser.rs:419-426 | consumes a token of the given kind, or fails with an error at the current token's line and column |
| Parser.Parser.Error | src/parser.rs:428-434 | the error carries the current token's line and column |
| Parser.Parser.Parse | src/parser.rs:14-23 | the result is `ParserSpec.ParseFrom`: functions until `Eof`; on success the cursor is on `Eof` |
| Parser.Parser.ParseFunction | src/parser.rs:26-44 | agrees with `ParserSpec.ParseFunction` on the result and, on success, on the new cursor |
| Parser.Parser.ParseParamList | src/parser.rs:47-67 | agrees with `ParserSpec.ParseParams` |
| Parser.Parser.ParseBlock | src/parser.rs:70-83 | agrees with `ParserSpec.ParseBlock` |
| Parser.Parser.ParseStatement | src/parser.rs:86-174 | agrees with `ParserSpec.ParseStatement` |
| Parser.Parser.ParseExpr | src/parser.rs:179-181 | agrees with `ParserSpec.ParseExpr` |
| Parser.Parser.ParseLogicOr | src/parser.rs:184-198 | agrees with `ParseLevel` at level 7 (`\|\|`) |
| Parser.Parser.ParseLogicAnd | src/parser.rs:201-215 | agrees with `ParseLevel` at level 6 (`&&`) |
| Parser.Parser.ParseEquality | src/parser.rs:218-238 | agrees with `ParseLevel` at level 5 (`== !=`) |
| Parser.Parser.ParseRelational | src/parser.rs:241-267 | agrees with `ParseLevel` at level 4 (`< <= > >=`) |
| Parser.Parser.ParseAdd | src/parser.rs:270-290 | agrees with `ParseLevel` at level 3 (`+ -`) |
| Parser.Parser.ParseMul | src/parser.rs:293-317 | agrees with `ParseLevel` at level 2 (`* / %`) |
| Parser.Parser.ParseUnary | src/parser.rs:320-337 | agrees with `ParseLevel` at the unary level |
| Parser.Parser.ParsePrimary | src/parser.rs:340-378 | agrees with `ParserSpec.ParsePrimary` |
| Parser.Parser.ParseArgList | src/parser.rs:381-394 | agrees with `ParserSpec.ParseArgs` |
| ParserSpec.Advance | src/parser.rs:409-413 | the cursor stays on `Eof` and otherwise moves one on |
| ParserSpec.Expect | src/parser.rs:419-426 | succeeds exactly when `check` holds, moving one on; otherwise an "expected" error at the current token |
| ParserSpec.ErrorAt | src/parser.rs:428-434 | an error carries the line and column of the token it is reported at |
| ParserSpec.ParseLevel | src/parser.rs:184-337 | a parsed expression consumes at least one token and stops before the end; an error is reported at a token at or after the start |
| ParserSpec.ParsePrimary | src/parser.rs:340-378 | progress, and errors reported at or after the start |
| ParserSpec.ParseExpr | src/parser.rs:179-181 | progress, and errors reported at or after the start |
| ParserSpec.ParseStatement | src/parser.rs:86-174 | progress, and errors reported at or after the start |
| ParserSpec.ParseBlock | src/parser.rs:70-83 | progress, and errors reported at or after the start |
| ParserSpec.ParseParams | src/parser.rs:47-67 | no leading identifier gives no parameters and consumes nothing; otherwise the first name comes first and parsing stops at a token that is no comma; every error is ExpectedParameterName at a non-identifier right after a comma |
| ParserSpec.ParamsRest | src/parser.rs:54-63 | the loop keeps the names collected so far as a prefix and stops at a token that is no comma; every error is ExpectedParameterName at a non-identifier right after a comma |
| ParserSpec.ParseFunction | src/parser.rs:26-44 | progress, and errors reported at or after the start |
| ParserSpec.Parse | src/parser.rs:14-23 | an error is reported at one of the tokens |
| ParserProperties.ExprRoundTrip | src/parser.rs:179-394 | the printed tokens of any expression, with only the parentheses precedence needs, followed by a token that cannot continue an expression, parse back to that expression |
| ParserStatements.ParseStmt | src/parser.rs:86-174 | the printed tokens of any statement parse back to it |
| ParserStatements.ParseBlockAt | src/parser.rs:70-83 | the printed tokens of any block parse back to it |
| ParserStatements.ParseParamsAt | src/parser.rs:47-67 | printed parameter lists, comma-separated, parse back to the same names |
| ParserStatements.ParseFunctionAt | src/parser.rs:26-44 | the printed tokens of any function parse back to it |
| ParserStatements.ParseRoundTrip | src/parser.rs:14-23 | any program's printed tokens followed by `Eof` parse to that program |
| ParserExamples.PrecedenceExample | src/parser.rs:270-317 | `a + b * 2` parses as `a + (b * 2)` |
| ParserExamples.PrecedenceLeftExample | src/parser.rs:270-317 | `a * b + 2` parses as `(a * b) + 2` |
| ParserExamples.AssociativityExample | src/parser.rs:270-290 | `a - b - c` parses as `(a - b) - c` |
| ParserExamples.LogicExample | src/parser.rs:184-215 | `a \|\| b && c` parses as `a \|\| (b && c)` |
| ParserExamples.UnaryExample | src/parser.rs:320-337 | `-a * b` parses as `(-a) * b` |
| ParserExamples.NestedUnaryExample | src/parser.rs:320-337 | `!!x` parses as `!(!x)` |
| ParserExamples.ParenthesesExample | src/parser.rs:363-368 | `(a + b) * 2` parses as `(a + b) * 2` |
| ParserExamples.EmptyCallExample | src/parser.rs:349-357 | `f()` parses as a call with no arguments |
| ParserExamples.NoExpression | src/parser.rs:340-378 | at any level, a token that cannot start an expression is an "expected expression" error at that token |
| ParserExamples.TrailingCommaArgs | src/parser.rs:381-394 | `f(a,)` is an "expected expression" error at the `)` |
| ParserErrors.ParamsRestStops | src/parser.rs:54-63 | over `, n1 … , nk` followed by a non-comma the loop appends exactly those names and stops there |
| ParserErrors.ParamsRestFails | src/parser.rs:54-62 | over `, n1 … , nk` followed by a comma and a non-identifier the loop fails with ExpectedParameterName at that token |
| ParserErrors.ParamAfterCommaMissing | src/parser.rs:26-62 | `func f(a, …,` followed by a non-identifier is rejected with ExpectedParameterName at that token, for any number of names |
| ParserErrors.FunctionNeedsName | src/parser.rs:27-32 | `func` followed by a non-identifier is ExpectedFunctionName at that token |
| ParserErrors.BlockNeedsBrace | src/parser.rs:70-71 | a block not opening with `{` is rejected at its first token |
| ParserErrors.UnclosedBlock | src/parser.rs:75-80 | a block still open at `Eof` is rejected with an expected `}` at the `Eof` |
| ParserErrors.LetNeedsName | src/parser.rs:88-94 | `let` followed by a non-identifier is ExpectedVariableName at that token |
| ParserErrors.LetNeedsAssign | src/parser.rs:95-97 | `let x` followed by anything but `=` is an expected `=` at that token |
| ParserErrors.LetNeedsSemicolon | src/parser.rs:99-101 | `let x = e` followed by anything but `;` is an expected `;` at that token |
| ParserErrors.LetValueError | src/parser.rs:99 | an initializer that fails to parse makes the declaration fail with the same error |
| ParserErrors.ReturnNeedsSemicolon | src/parser.rs:138-143 | `return e` followed by anything but `;` is an expected `;` at that token |
| ParserErrors.ReturnNeedsValue | src/parser.rs:138-141 | `return;` is ExpectedExpression at the `;` |
| ParserErrors.IfNeedsBlock | src/parser.rs:107-111 | `if c` followed by anything but `{` is an expected `{` at that token |
| ParserErrors.ElseNeedsBlock | src/parser.rs:113-116 | `else` followed by anything but `{` is an expected `{` at that token |
| ParserErrors.WhileNeedsBlock | src/parser.rs:128-132 | `while c` followed by anything but `{` is an expected `{` at that token |
| ParserErrors.AssignmentNeedsSemicolon | src/parser.rs:150-157 | `x = e` followed by anything but `;` is an expected `;` at that token |
| ParserErrors.ExprStmtNeedsSemicolon | src/parser.rs:148-171 | a statement with no keyword that is no assignment is an expression and must be followed by `;` |
| ParserExamples.TrailingCommaParams | src/parser.rs:47-67 | `func f(a,)` is an "expected parameter name" error at the `)` |
| Semantic.SemanticAnalyzer.constructor | src/semantic.rs:25-30 | an empty table and one empty base scope |
| Semantic.SemanticAnalyzer.Analyze | src/semantic.rs:32-63 | succeeds exactly when `SemanticSpec.Analyze` does; the table and stack end as it says, on success and on each error |
| Semantic.SemanticAnalyzer.AnalyzeFunction | src/semantic.rs:65-84 | leaves the table alone; outcome and stack are those of `FunctionRun` |
| Semantic.SemanticAnalyzer.AnalyzeBlock | src/semantic.rs:86-91 | outcome and stack are those of `BlockRun` |
| Semantic.SemanticAnalyzer.AnalyzeStatement | src/semantic.rs:93-149 | outcome and stack are those of `StmtRun` |
| Semantic.SemanticAnalyzer.AnalyzeExpr | src/semantic.rs:151-207 | reads only; the outcome is `CheckExpr` of the table and stack |
| Semantic.SemanticAnalyzer.EnterScope | src/semantic.rs:209-211 | pushes an empty scope |
| Semantic.SemanticAnalyzer.ExitScope | src/semantic.rs:213-215 | pops the innermost scope; an empty stack stays empty |
| Semantic.SemanticAnalyzer.DeclareVariable | src/semantic.rs:221-223 | adds the name to the innermost scope only |
| Semantic.SemanticAnalyzer.IsVariableDeclared | src/semantic.rs:225-232 | the innermost-first search answers true exactly when some scope holds the name |
| SemanticSpec.Enter | src/semantic.rs:209-211 | one scope deeper, earlier scopes unchanged, new scope empty |
| SemanticSpec.Exit | src/semantic.rs:213-215 | drops the innermost scope; leaves an empty stack empty |
| SemanticSpec.Declare | src/semantic.rs:221-223 | same depth, outer scopes unchanged, innermost scope gains the name |
| SemanticSpec.StmtRun | src/semantic.rs:93-149 | on success, a `let` declares its name in the innermost scope and every other statement leaves the stack as it was |
| SemanticSpec.BlockRun | src/semantic.rs:86-91 | on success the depth and the outer scopes are unchanged and the innermost scope only grows |
| SemanticSpec.ParamsRun | src/semantic.rs:69-75 | on success the innermost scope gains exactly the parameters |
| SemanticSpec.FunctionRun | src/semantic.rs:65-84 | on success the stack is exactly as before |
| SemanticSpec.FunctionsRun | src/semantic.rs:57-60 | on success the stack is exactly as before |
| SemanticSpec.Collect | src/semantic.rs:33-46 | on success the table only grows |
| SemanticSpec.Analyze | src/semantic.rs:32-63 | on success the stack is unchanged and `main` is in the table |
| SemanticProperties.Union | src/semantic.rs:225-232 | every scope of the stack is within the set of visible names |
| SemanticProperties.DeclaredInUnion | src/semantic.rs:225-232 | a name is declared exactly when it is among the visible names, whatever the search order |
| SemanticProperties.UnionDeclare | src/semantic.rs:221-223 | a declaration adds exactly its name to the visible names |
| SemanticProperties.UnionEnter | src/semantic.rs:209-211 | entering a scope changes no visible name |
| SemanticProperties.ExitAfterBlock | src/semantic.rs:120-122 | a block run in its own scope, then popped, leaves the stack as it was |
| SemanticProperties.TableDefines | src/semantic.rs:183-197 | with distinct names, a table lookup with an arity check answers whether the program defines that function with that many parameters |
| SemanticProperties.CollectFrom | src/semantic.rs:33-46 | the first pass succeeds exactly when the remaining names are distinct and new. It then adds each signature and keeps the old ones. On failure it names a function defined twice or already present |
| SemanticProperties.CollectIff | src/semantic.rs:33-46 | from an empty table the first pass succeeds exactly on distinct names, and then holds every function's signature, so forward and recursive calls resolve |
| SemanticProperties.ExprIff | src/semantic.rs:151-207 | `analyze_expr` succeeds exactly when every variable read is visible, `print` gets one argument, and every other call names a program function with matching arity |
| SemanticProperties.ArgsIff | src/semantic.rs:199-202 | the argument loop succeeds exactly when every remaining argument is well formed |
| SemanticProperties.StmtIff | src/semantic.rs:93-149 | `analyze_statement` succeeds exactly when the statement is well scoped: the initializer is checked before the name is declared, a `let` may shadow an outer name but not one of its own scope, and nested blocks get a fresh scope |
| SemanticProperties.BlockIff | src/semantic.rs:86-91 | `analyze_block` succeeds exactly when each statement is well scoped, seeing the earlier `let`s of its block but nothing declared inside nested blocks |
| SemanticProperties.ParamsIff | src/semantic.rs:69-75 | the parameter loop succeeds exactly when the remaining parameters are distinct and new to the scope |
| SemanticProperties.FunctionIff | src/semantic.rs:65-84 | `analyze_function` succeeds exactly when the parameters are distinct and the body is well scoped in the parameters' own scope |
| SemanticProperties.FunctionsIff | src/semantic.rs:57-60 | the second pass succeeds exactly when every remaining function is well scoped |
| SemanticProperties.AnalyzeIff | src/semantic.rs:32-63 | a new analyzer accepts a program exactly when its function names are distinct, a `main` without parameters exists, and every function is well scoped |
| SemanticProperties.DuplicateFunctionReported | src/semantic.rs:34-37 | a program that repeats a function name is rejected with an error naming a function defined twice |
| SemanticProperties.NoMainReported | src/semantic.rs:48-51 | distinct names but no `main`: rejected with that error, after the whole table is built |
| SemanticProperties.MainParametersReported | src/semantic.rs:53-55 | a `main` with parameters: rejected with that error before any body is checked |
| SemanticExamples.ShadowingExample | src/semantic.rs:95-103 | a `let` inside an `if` block may reuse an outer name; the analyzer ends where it started |
| SemanticExamples.DuplicateLetExample | src/semantic.rs:98-100 | two `let x` in one block: duplicate variable, with the function scope `{x}` left on the stack |
| SemanticExamples.BlockScopeExample | src/semantic.rs:131-137 | a name declared in a loop body is undefined after the loop |
| SemanticExamples.SelfReferenceExample | src/semantic.rs:95-100 | `let x = x;` is an undefined-variable error: the initializer is checked first |
| SemanticExamples.PrintArityExample | src/semantic.rs:175-178 | `print(1, 2)` is a print-arity error |
| SemanticExamples.PrintBuiltInFirstExample | src/semantic.rs:173-181 | the built-in rule for `print` wins over a user function of that name |
| SemanticExamples.ForwardAndRecursiveCallExample | src/semantic.rs:33-46 | a call to a later function and a recursive call are both accepted |
| SemanticExamples.ParameterLetExample | src/semantic.rs:65-78 | a `let` that reuses a parameter name is a duplicate variable, since the body shares the parameters' scope |
| SemanticExamples.DuplicateParameterExample | src/semantic.rs:70-75 | `f(a, a)` is a duplicate-parameter error |
| SemanticExamples.ArityExample | src/semantic.rs:189-197 | calling a one-parameter function with no arguments reports expected 1, got 0 |
| SemanticExamples.UndefinedFunctionExample | src/semantic.rs:183-187 | calling an unknown name is an undefined-function error |
| SemanticExamples.FunctionCallProgramAccepted | src/main.rs:105-121 | the function-call test program is accepted with both signatures in the table |
| SemanticExamples.WhileLoopProgramAccepted | src/main.rs:86-103 | the while-loop test program is accepted |
| SemanticExamples.PrintProgramAccepted | src/semantic.rs:173-181 | `print(42); return 0;` is accepted |
| SemanticExamples.CountingLoopAccepted | src/semantic.rs:131-137 | a loop that prints and increments an outer variable is accepted |
| SemanticExamples.UndefinedVariableExample | src/semantic.rs:155-160 | `print(y)` with no `y` is an undefined-variable error naming `y` |

## Left out

- `src/codegen.rs`, `src/runtime.rs`, `src/lib.rs` and `src/main.rs` are not part of this model. They cover code generation through an external backend, the runtime's `print_int`, and the driver that reads files and prints errors.
- LexerSpec.IsAlphabetic and LexerSpec.IsAlphanumeric: Rust's `char::is_alphabetic` and `char::is_alphanumeric` accept every Unicode letter and numeric. The model accepts only ASCII letters and digits, both where an identifier starts and where it continues (`src/lexer.rs:154` and `src/lexer.rs:180`). So for `x²` the source reads one identifier `x²`, while the model reads `x` and then reports `²` as an unexpected character.
- Error messages are modelled as error kinds carrying the names, counts, line and column that the message shows, not as formatted strings.
- Parser.Parser.Agrees: after an error, the parsing methods promise only the error, not where the cursor stopped. The source discards the parser on error.
- Parser.Parser.constructor requires a non-empty token list ending in `Eof`. Some of the lists this excludes make the source panic, because it indexes past their end: `[]`, or `[Func]`. Others it handles without a panic: it accepts `[Eof, Func]` as an empty program, and rejects `[Let]` with an expected-`Func` error. The model says nothing about either kind. The lexer never produces any of them (`FrontEnd.LexedTokensAreParsable`).
- Ast.Program.AddFunction and Ast.Block.AddStatement return the extended value instead of pushing in place. Each AST node has exactly one owner, so no other reference can observe the difference.
- `usize` counters are modelled as unbounded naturals: lines, columns, parameter counts. Overflow at 2^64 is not modelled.
- Deep recursion in the parser and analyzer can overflow the native stack. That is not modelled.
- Source locations on AST nodes do not exist in the code and are not modelled. The `Token`'s `Debug`/`Clone` derivations are not modelled either.
- `SemanticAnalyzer`'s scopes map each name to a `VarInfo` that holds only the name again, so each scope is modelled as a set of names.
- SemanticProperties.AnalyzeIff and the error lemmas are stated for a new analyzer (`Fresh`). `SemanticAnalyzer.Analyze` itself is specified for any starting state.
