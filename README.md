# A verified model of the jlox parser

This project models the recursive-descent parser of a Lox interpreter
(`Parser.java`) in Dafny. The parser turns the scanner's token list, which
ends with an `EOF` token, into a list of statement trees. It reports each
syntax error with the token where it was found and a message. After an
error it recovers at the next statement boundary, so it can go on parsing.

The model has two layers.

- **Specification functions.** Each production of the grammar is a pure
  function of the token list, the read index and the diagnostics reported
  so far. Expressions are in `ExprGrammar`, statements in `StmtGrammar`,
  recovery in `Recovery`, and the token cursor in `Cursor`. Each function
  returns a `Parsed` value: the result (`Ok(tree)`, or `ParseError` where
  Java throws), the new read index, and the extended list of diagnostics.
  The contracts state what holds for every input:
  - the cursor never moves back and never passes the first `EOF`;
  - a failure always comes with at least one report;
  - every tree the expression chain builds respects the precedence table
    and left associativity (`Precedence.WellNested`);
  - a statement production that succeeds consumes at least one token;
  - when nothing was reported, no statement list holds a failed entry;
  - `parse()` never fails, reads everything up to `EOF`, and yields at most
    one failed entry per report.
- **The parser object.** `LoxParser.Parser` is a class with the token
  list, the mutable read index `current` and the list of diagnostics. Its
  methods follow the Java methods one by one, with the same `while` loops.
  Each method is proved to produce exactly what its specification function
  gives from the state it starts in: the same result, the same final read
  index and the same diagnostics.

On top of these, lemmas state the parser's promises about whole inputs:

- operators of one level group to the left;
- a tighter operator takes its operands first;
- `=` groups to the right; a left side that parses to anything but a
  name (a literal, a group, a call, a binary) draws one report at the `=`
  and comes back unchanged, whatever the right-hand side is;
- an `else` binds to the innermost `if`, shown for the shape
  `if (a) if (b) s else t` with one-token conditions and `print` branches;
- `for (;;)` is exactly `while (true)`;
- every parameter beyond the limit of 8 is reported once, for any list of
  names; every argument beyond it is reported once, at its own token, for
  arguments of one token each; in both cases the function or call is still built with all
  of them;
- recovery stops at the first statement boundary after the failed token,
  so a malformed declaration costs at least one report and leaves one
  `None` entry; a malformed declaration can make more than one report
  before it fails (`1 = 2 print 3 ;` gives two).

Concrete token lists in `Scenarios` show these facts on small programs.

Java's `null` (an absent initializer, an absent `else` branch, a failed
declaration) is `Ast.Option`. A report made by `Lox.error` is a
`Diagnostic(token, message)` appended to the diagnostics list. The
location text of a report is `Diagnostics.Where`.

A failed declaration is not dropped: `parse()` and `block()` add the
`null` that `declaration()` returns to their lists (Parser.java:34, 55,
198). The model keeps a `None` entry for it, at the top level, in blocks
and in function bodies.

## Model

All source paths are under `src/com/craftinginterpreters/lox/`, written out in full.

| member | source | states |
|---|---|---|
| Cursor.FirstEnd | src/com/craftinginterpreters/lox/Parser.java:387-389 | the index where parsing stops is a token of the list, and that token is `EOF` |
| Cursor.FirstEndFrom | src/com/craftinginterpreters/lox/Parser.java:387-389 | the search for `EOF` from an index lands on an `EOF` token at or after that index |
| Cursor.FirstEndFromIsFirst | src/com/craftinginterpreters/lox/Parser.java:387-389 | no token between the start of the search and the index it finds is `EOF` |
| Cursor.Peek | src/com/craftinginterpreters/lox/Parser.java:391-393 | `peek()` returns an `EOF` token exactly when the cursor stands on the first `EOF` |
| Cursor.IsAtEnd | src/com/craftinginterpreters/lox/Parser.java:387-389 | `isAtEnd()` holds exactly at the index of the first `EOF` |
| Cursor.Check | src/com/craftinginterpreters/lox/Parser.java:377-380 | `check(EOF)` never holds, since `check` is false at the end; for any other kind, `check` holds exactly when the current token has that kind |
| Cursor.Previous | src/com/craftinginterpreters/lox/Parser.java:395-397 | the token before the cursor lies before the first `EOF` and so is never `EOF` |
| Cursor.Matches | src/com/craftinginterpreters/lox/Parser.java:366-375 | `match(types)` consumes exactly when `check` holds of one of `types`, as its loop over `types` tests them |
| Cursor.Advance | src/com/craftinginterpreters/lox/Parser.java:382-385 | `advance()` keeps the cursor on a token, up to the first `EOF`; it stays put exactly at `EOF` and otherwise moves one token forward |
| Cursor.Consume | src/com/craftinginterpreters/lox/Parser.java:400-404 | `consume` succeeds exactly when `check` holds: it then returns the current token, moves one forward and reports nothing; otherwise it reports (current token, message) once and fails with the cursor unmoved |
| Diagnostics.Where | src/com/craftinginterpreters/lox/Lox.java:71-77 | the location text of a report is " at end" exactly when the token is `EOF` |
| Precedence.Next | src/com/craftinginterpreters/lox/Parser.java:227-301 | each binary level takes its operands from the level that binds one step tighter |
| Precedence.OperatorLevel | src/com/craftinginterpreters/lox/Parser.java:227-301 | an operator kind belongs to a level exactly when that level's `match` lists it, so each operator belongs to at most one level |
| ExprGrammar.ParseExpression | src/com/craftinginterpreters/lox/Parser.java:205-207 | `expression()` never moves the cursor back or past `EOF`, only appends reports, reports before failing, and builds only well-nested trees |
| ExprGrammar.ParseAssignment | src/com/craftinginterpreters/lox/Parser.java:209-225 | the same guarantees for `assignment()`, whose result has assignment precedence or tighter |
| ExprGrammar.Node | src/com/craftinginterpreters/lox/Parser.java:227-301 | the node a level builds has that level's precedence, and it is well nested exactly when its left operand binds at least as tightly and its right operand strictly more tightly |
| ExprGrammar.ParseOperand | src/com/craftinginterpreters/lox/Parser.java:227-301 | the operand of a binary level binds strictly more tightly than that level |
| ExprGrammar.ParseBinary | src/com/craftinginterpreters/lox/Parser.java:227-301 | each binary level yields a well-nested tree of its own precedence or tighter; the cursor and reports behave as for `expression()` |
| ExprGrammar.BinaryLoop | src/com/craftinginterpreters/lox/Parser.java:227-301 | the `while (match(...))` loop of a level keeps the left operand well nested at that level's precedence, however many operators it folds |
| ExprGrammar.ParseUnary | src/com/craftinginterpreters/lox/Parser.java:303-311 | `unary()` yields a tree of unary precedence or tighter |
| ExprGrammar.ParseCall | src/com/craftinginterpreters/lox/Parser.java:313-325 | `call()` yields a tree of call precedence or tighter |
| ExprGrammar.CallLoop | src/com/craftinginterpreters/lox/Parser.java:316-322 | the call loop keeps its callee well nested at call precedence, whatever number of argument lists follows |
| ExprGrammar.FinishCall | src/com/craftinginterpreters/lox/Parser.java:327-341 | `finishCall` builds a `Call` node on the given callee, closed by a `)` token, whose arguments are all well nested |
| ExprGrammar.ReportArity | src/com/craftinginterpreters/lox/Parser.java:181-183 | the arity check of a parameter or argument loop adds exactly one report, at the current token and with the given message, when `MaxArgs` items have been read already, and otherwise leaves the reports as they were |
| ExprGrammar.ParseArguments | src/com/craftinginterpreters/lox/Parser.java:329-336 | the argument loop keeps the arguments read so far as a prefix, adds at least one, and all of them are well nested |
| ExprGrammar.StartsPrimary | src/com/craftinginterpreters/lox/Parser.java:343-360 | no kind that starts a primary is `EOF`, `=` or an operator of a binary level |
| ExprGrammar.ParsePrimary | src/com/craftinginterpreters/lox/Parser.java:343-363 | `primary()` succeeds only on `false`, `true`, `nil`, a number, a string, `(` or a name; on any other token it fails with "Expect expression." reported at that token and the cursor unmoved |
| StmtGrammar.MaybeExpression | src/com/craftinginterpreters/lox/Parser.java:105-108 | an optional expression is present exactly when it is asked for |
| StmtGrammar.ParseVarDeclaration | src/com/craftinginterpreters/lox/Parser.java:59-69 | `varDeclaration()`: without a name at the cursor it fails at once with exactly one report, `Expect variable name.`, at that token; on success it builds a `Var` named by that token, with an initializer exactly when `=` follows the name, ending at the consumed `;`; it reports before failing, and without a report the statement is complete |
| StmtGrammar.ParseCondition | src/com/craftinginterpreters/lox/Parser.java:72-74 | a parenthesised condition: without `(` it fails at once with exactly one report of the opening message at that token; on success it began at `(` and ended at the consumed `)`; it reports before failing |
| StmtGrammar.ParsePrint | src/com/craftinginterpreters/lox/Parser.java:150-154 | `printStatement()` builds a `Print` node ending at the consumed `;`, makes progress, reports before failing, and is complete when nothing was reported |
| StmtGrammar.ParseReturn | src/com/craftinginterpreters/lox/Parser.java:156-165 | `returnStatement()` builds a `Return` whose keyword is the `return` token just read, with no value exactly when `;` comes next, ending at the consumed `;`; progress, a report before failure, and a complete statement when nothing was reported |
| StmtGrammar.ParseExpressionStatement | src/com/craftinginterpreters/lox/Parser.java:167-171 | `expressionStatement()` builds an `Expression` node ending at the consumed `;`; progress, a report before failure, and a complete statement when nothing was reported |
| StmtGrammar.ParseForInitializer | src/com/craftinginterpreters/lox/Parser.java:96-103 | the initializer clause consumes at least its `;`, and a present initializer is complete when nothing was reported |
| StmtGrammar.ParseForClauses | src/com/craftinginterpreters/lox/Parser.java:93-115 | the `for` header consumes at least one token when it succeeds and reports before failing |
| StmtGrammar.ParseForTail | src/com/craftinginterpreters/lox/Parser.java:105-115 | the rest of the `for` header has no condition exactly when `;` comes first, ends at the consumed `)`, consumes at least one token when it succeeds and reports before failing |
| StmtGrammar.Desugar | src/com/craftinginterpreters/lox/Parser.java:119-133 | desugaring a `for` loop whose body and initializer are complete yields a complete statement |
| StmtGrammar.ParseFunctionHeader | src/com/craftinginterpreters/lox/Parser.java:174-189 | a function header yields a name token and parameters that are all identifier tokens |
| StmtGrammar.ParseParameters | src/com/craftinginterpreters/lox/Parser.java:179-187 | the parameter loop keeps the parameters read so far as a prefix, adds at least one, and every parameter is an identifier token |
| StmtGrammar.ParseDeclaration | src/com/craftinginterpreters/lox/Parser.java:45-57 | `declaration()` never fails and always consumes a token; a `None` entry comes with a new report and leaves the cursor on a statement boundary; with no new report the entry is present and complete |
| StmtGrammar.DeclarationOutcome | src/com/craftinginterpreters/lox/Parser.java:45-57 | the entry is `None` exactly when the attempt fails; a successful attempt is kept as `Some` of its own statement, at its own position and with its own reports; a failed one leaves the cursor where `synchronize()` stops after the failure and adds no report of its own |
| StmtGrammar.AttemptDeclaration | src/com/craftinginterpreters/lox/Parser.java:46-52 | the `try` block of `declaration()`: progress on success, a report before failure, a complete statement when nothing was reported |
| StmtGrammar.ParseFunction | src/com/craftinginterpreters/lox/Parser.java:174-192 | `function("function")`: the same three guarantees |
| StmtGrammar.ParseStatement | src/com/craftinginterpreters/lox/Parser.java:80-89 | `statement()`: the same three guarantees |
| StmtGrammar.ParseFor | src/com/craftinginterpreters/lox/Parser.java:92-134 | `forStatement()`: the same three guarantees |
| StmtGrammar.ParseIf | src/com/craftinginterpreters/lox/Parser.java:136-148 | `ifStatement()`: the same three guarantees |
| StmtGrammar.ParseElse | src/com/craftinginterpreters/lox/Parser.java:142-145 | the optional `else` branch never moves the cursor back and is complete when nothing was reported |
| StmtGrammar.ParseWhile | src/com/craftinginterpreters/lox/Parser.java:71-78 | `whileStatement()`: without `(` it fails at once with exactly one report, `Expect '(' after 'while'.`, at that token; on success it builds a `While` node; progress, a report before failure, and a complete statement when nothing was reported |
| StmtGrammar.ParseBlock | src/com/craftinginterpreters/lox/Parser.java:194-203 | `block()` ends at the consumed `}`, holds fewer entries than the tokens it read, reports before failing, and with no report holds only complete entries |
| StmtGrammar.BlockLoop | src/com/craftinginterpreters/lox/Parser.java:197-199 | the loop of `block()` never fails, keeps earlier entries as a prefix, adds at most one entry per token read, and adds only complete entries when nothing is reported |
| StmtGrammar.ParseLoop | src/com/craftinginterpreters/lox/Parser.java:33-35 | the loop of `parse()` never fails and ends at `EOF`; it keeps earlier entries as a prefix and adds at most one entry per token read; it adds no more failed entries than new reports |
| StmtGrammar.Parse | src/com/craftinginterpreters/lox/Parser.java:31-38 | `parse()` never fails and reads up to the first `EOF`; it yields at most one entry per token before `EOF`, at most one failed entry per report, and only complete entries, at every depth, when nothing was reported |
| Recovery.Boundary | src/com/craftinginterpreters/lox/Parser.java:414-426 | a boundary (the end of input, just after `;`, or just before one of the eight statement keywords of the `switch`) is exactly an index where the recovery loop stops at once |
| Recovery.SyncLoop | src/com/craftinginterpreters/lox/Parser.java:414-430 | the recovery loop never moves back and stays on a token |
| Recovery.Synchronize | src/com/craftinginterpreters/lox/Parser.java:411-431 | `synchronize()` discards at least one token unless it stands on `EOF`, where it stays |
| Recovery.SyncLoopStops | src/com/craftinginterpreters/lox/Parser.java:414-430 | the recovery loop stops on a boundary (end of input, after `;`, before a statement keyword) and passes over none |
| Recovery.SynchronizeStops | src/com/craftinginterpreters/lox/Parser.java:411-431 | recovery lands on the first boundary after the token it discards |
| LoxParser.Parser.constructor | src/com/craftinginterpreters/lox/Parser.java:27-29 | a new parser holds the token list, reads from its first token and has reported nothing |
| LoxParser.Parser.IsAtEnd | src/com/craftinginterpreters/lox/Parser.java:387-389 | `isAtEnd()` holds exactly when `current` is the index of the first `EOF` |
| LoxParser.Parser.Peek | src/com/craftinginterpreters/lox/Parser.java:391-393 | `peek()` returns the token at `current`, which is `EOF` exactly at the first `EOF` |
| LoxParser.Parser.Check | src/com/craftinginterpreters/lox/Parser.java:377-380 | `check(EOF)` never holds; for any other kind, `check` holds exactly when the token at `current` has it |
| LoxParser.Parser.Previous | src/com/craftinginterpreters/lox/Parser.java:395-397 | `previous()` returns the token before `current`, which is never `EOF` |
| LoxParser.Parser.Advance | src/com/craftinginterpreters/lox/Parser.java:382-385 | `advance()` moves `current` as `Cursor.Advance` says and returns the token just before the cursor |
| LoxParser.Parser.Match | src/com/craftinginterpreters/lox/Parser.java:366-375 | `match(types)` returns true and moves `current` by exactly one when the current token is not `EOF` and its kind is listed; otherwise it returns false and leaves `current` unchanged |
| LoxParser.Parser.Consume | src/com/craftinginterpreters/lox/Parser.java:400-404 | `consume` agrees with `Cursor.Consume`: result, read index and reports |
| LoxParser.Parser.Error | src/com/craftinginterpreters/lox/Parser.java:406-409 | `error` appends exactly one report, with the given token and message |
| LoxParser.Parser.Synchronize | src/com/craftinginterpreters/lox/Parser.java:411-431 | the `synchronize()` loop leaves `current` where `Recovery.Synchronize` says |
| LoxParser.Parser.Expression | src/com/craftinginterpreters/lox/Parser.java:205-207 | `expression()` agrees with `ExprGrammar.ParseExpression` |
| LoxParser.Parser.Assignment | src/com/craftinginterpreters/lox/Parser.java:209-225 | `assignment()` agrees with `ExprGrammar.ParseAssignment` |
| LoxParser.Parser.Operand | src/com/craftinginterpreters/lox/Parser.java:227-301 | the operand call of a binary level agrees with `ExprGrammar.ParseOperand` |
| LoxParser.Parser.BinaryLevel | src/com/craftinginterpreters/lox/Parser.java:227-301 | each of `or()` to `multiplication()` agrees with `ExprGrammar.ParseBinary` |
| LoxParser.Parser.FoldOperators | src/com/craftinginterpreters/lox/Parser.java:227-301 | the `while (match(...))` loop of a binary level agrees with `ExprGrammar.BinaryLoop` |
| LoxParser.Parser.Unary | src/com/craftinginterpreters/lox/Parser.java:303-311 | `unary()` agrees with `ExprGrammar.ParseUnary` |
| LoxParser.Parser.Call | src/com/craftinginterpreters/lox/Parser.java:313-325 | `call()` and its loop agree with `ExprGrammar.ParseCall` |
| LoxParser.Parser.FinishCall | src/com/craftinginterpreters/lox/Parser.java:327-341 | `finishCall` agrees with `ExprGrammar.FinishCall` |
| LoxParser.Parser.Arguments | src/com/craftinginterpreters/lox/Parser.java:329-336 | the argument loop agrees with `ExprGrammar.ParseArguments`, including the arity reports |
| LoxParser.Parser.Primary | src/com/craftinginterpreters/lox/Parser.java:343-363 | `primary()` agrees with `ExprGrammar.ParsePrimary` |
| LoxParser.Parser.Parse | src/com/craftinginterpreters/lox/Parser.java:31-38 | the loop of `parse()` agrees with `StmtGrammar.ParseLoop`, and on a fresh parser with `StmtGrammar.Parse` |
| LoxParser.Parser.Declaration | src/com/craftinginterpreters/lox/Parser.java:45-57 | `declaration()`, with its catch and recovery, agrees with `StmtGrammar.ParseDeclaration` |
| LoxParser.Parser.AttemptDeclaration | src/com/craftinginterpreters/lox/Parser.java:46-52 | the `try` block agrees with `StmtGrammar.AttemptDeclaration` |
| LoxParser.Parser.VarDeclaration | src/com/craftinginterpreters/lox/Parser.java:59-69 | `varDeclaration()` agrees with `StmtGrammar.ParseVarDeclaration` |
| LoxParser.Parser.WhileStatement | src/com/craftinginterpreters/lox/Parser.java:71-78 | `whileStatement()` agrees with `StmtGrammar.ParseWhile` |
| LoxParser.Parser.Condition | src/com/craftinginterpreters/lox/Parser.java:72-74 | the parenthesised condition agrees with `StmtGrammar.ParseCondition` |
| LoxParser.Parser.Statement | src/com/craftinginterpreters/lox/Parser.java:80-89 | `statement()` agrees with `StmtGrammar.ParseStatement` |
| LoxParser.Parser.ForStatement | src/com/craftinginterpreters/lox/Parser.java:92-134 | `forStatement()` agrees with `StmtGrammar.ParseFor` |
| LoxParser.Parser.ForClauses | src/com/craftinginterpreters/lox/Parser.java:93-115 | the `for` header agrees with `StmtGrammar.ParseForClauses` |
| LoxParser.Parser.ForInitializer | src/com/craftinginterpreters/lox/Parser.java:96-103 | the initializer clause agrees with `StmtGrammar.ParseForInitializer` |
| LoxParser.Parser.IfStatement | src/com/craftinginterpreters/lox/Parser.java:136-148 | `ifStatement()` agrees with `StmtGrammar.ParseIf` |
| LoxParser.Parser.PrintStatement | src/com/craftinginterpreters/lox/Parser.java:150-154 | `printStatement()` agrees with `StmtGrammar.ParsePrint` |
| LoxParser.Parser.ReturnStatement | src/com/craftinginterpreters/lox/Parser.java:156-165 | `returnStatement()` agrees with `StmtGrammar.ParseReturn` |
| LoxParser.Parser.ExpressionStatement | src/com/craftinginterpreters/lox/Parser.java:167-171 | `expressionStatement()` agrees with `StmtGrammar.ParseExpressionStatement` |
| LoxParser.Parser.Function | src/com/craftinginterpreters/lox/Parser.java:174-192 | `function("function")` agrees with `StmtGrammar.ParseFunction` |
| LoxParser.Parser.FunctionHeader | src/com/craftinginterpreters/lox/Parser.java:175-189 | the function header agrees with `StmtGrammar.ParseFunctionHeader` |
| LoxParser.Parser.Parameters | src/com/craftinginterpreters/lox/Parser.java:179-187 | the parameter loop agrees with `StmtGrammar.ParseParameters`, including the arity reports |
| LoxParser.Parser.Block | src/com/craftinginterpreters/lox/Parser.java:194-203 | `block()` and its loop agree with `StmtGrammar.ParseBlock` |
| ChainLemmas.AtomOf | src/com/craftinginterpreters/lox/Parser.java:343-360 | a one-token operand becomes a literal or a variable holding that token |
| ChainLemmas.AtomIsPrimary | src/com/craftinginterpreters/lox/Parser.java:343-360 | `primary()` on a one-token operand consumes exactly that token and reports nothing |
| ChainLemmas.AtomIsUnary | src/com/craftinginterpreters/lox/Parser.java:303-325 | a one-token operand not followed by `(` is a whole `unary()` |
| ChainLemmas.UnaryIsBinary | src/com/craftinginterpreters/lox/Parser.java:227-301 | when `unary()` fails, or no operator of a level follows it, every binary level above it passes its result up unchanged |
| ChainLemmas.Climb | src/com/craftinginterpreters/lox/Parser.java:227-301 | a level's result passes unchanged through every looser level when no looser operator follows |
| ChainLemmas.ExpressionIsLevel | src/com/craftinginterpreters/lox/Parser.java:205-237 | `expression()` is a level's result when neither a looser operator nor `=` follows it |
| ChainLemmas.UnaryIsExpression | src/com/craftinginterpreters/lox/Parser.java:205-311 | `expression()` is the result of `unary()` when neither an operator nor `=` follows it |
| ChainLemmas.AtomIsExpression | src/com/craftinginterpreters/lox/Parser.java:205-363 | a one-token operand followed by a token that continues no expression is a whole expression, with no report |
| ChainLemmas.Excess | src/com/craftinginterpreters/lox/Parser.java:331-333 | the number of items beyond `max_args` is all new items once the limit is reached, and none while it is not |
| ChainLemmas.ArgumentsArity | src/com/craftinginterpreters/lox/Parser.java:329-336 | over `n` one-token arguments the loop reads all `n` and reports each one beyond `max_args` exactly once, with the arity message, and nothing else |
| ChainLemmas.ArgumentReportTokens | src/com/craftinginterpreters/lox/Parser.java:331-333 | over `n` one-token arguments, the reports the loop adds are made at the tokens of the last arguments, one each, in order: the arity check names `peek()`, the argument about to be read |
| ChainLemmas.CallArity | src/com/craftinginterpreters/lox/Parser.java:327-341 | a call with `n` one-token arguments builds one `Call` node with all `n` arguments and reports exactly the excess ones, each at the token of its own argument: the limit never stops the call |
| ChainLemmas.ArityLimit | src/com/craftinginterpreters/lox/Parser.java:25 | exactly `max_args` (8) arguments draw no report, and one more draws exactly one, the arity message at the token of the ninth argument, while the node still holds all of them |
| ChainLemmas.ParametersArity | src/com/craftinginterpreters/lox/Parser.java:179-187 | over `n` names the parameter loop reads all `n` and reports each one beyond `max_args` exactly once |
| ChainLemmas.FunctionArity | src/com/craftinginterpreters/lox/Parser.java:174-189 | a function header with `n` parameters keeps its name and all `n` parameters, and reports exactly the excess ones |
| ChainLemmas.ForWithoutClauses | src/com/craftinginterpreters/lox/Parser.java:92-134 | `for (;;) body` is exactly `While(Literal(true), body)`: no block and no increment statement |
| Grouping.IsOperator | src/com/craftinginterpreters/lox/Parser.java:227-301 | an operator of a level belongs to no other level and is neither `(`, `=` nor `EOF` |
| Grouping.AtomIsOperand | src/com/craftinginterpreters/lox/Parser.java:227-301 | a one-token operand followed by no tighter operator is a whole operand of the level |
| Grouping.LevelStartsWithAtom | src/com/craftinginterpreters/lox/Parser.java:227-301 | a level that starts with such an operand continues with its loop right after it |
| Grouping.LoopStops | src/com/craftinginterpreters/lox/Parser.java:227-301 | a level's loop ends, with its left operand unchanged, in front of a token that continues no expression |
| Grouping.FoldAtom | src/com/craftinginterpreters/lox/Parser.java:227-301 | an operator and a one-token operand fold into the left operand, two tokens further on |
| Grouping.LastFold | src/com/craftinginterpreters/lox/Parser.java:227-301 | a final operator and a one-token operand end the loop with one more node |
| Grouping.SameLevelGroupsLeft | src/com/craftinginterpreters/lox/Parser.java:227-301 | `a op b op c` with two operators of one level is `(a op b) op c`, at every level, with no report |
| Grouping.SameLevelRun | src/com/craftinginterpreters/lox/Parser.java:227-301 | the level itself reads `a op b op c` as `(a op b) op c` |
| Grouping.PairRun | src/com/craftinginterpreters/lox/Parser.java:227-301 | a level reads `b op c` as one node of that level |
| Grouping.TightPairIsOperand | src/com/craftinginterpreters/lox/Parser.java:227-301 | `b hi c` is a whole operand of any looser level |
| Grouping.TighterTakesRightOperand | src/com/craftinginterpreters/lox/Parser.java:227-301 | `a lo b hi c` with `hi` tighter is `a lo (b hi c)`, for every pair of levels |
| Grouping.LooserRun | src/com/craftinginterpreters/lox/Parser.java:227-301 | the looser level itself reads `a lo b hi c` as `a lo (b hi c)` |
| Grouping.FoldPair | src/com/craftinginterpreters/lox/Parser.java:227-301 | a looser operator followed by `b hi c` folds the whole pair as its right operand |
| Grouping.NameIsTarget | src/com/craftinginterpreters/lox/Parser.java:209-219 | a name followed by `=` assigns whatever expression follows, and that expression's failure fails the whole |
| Grouping.ValueIsNoTarget | src/com/craftinginterpreters/lox/Parser.java:209-224 | whatever the left of `=` parses to, unless it is a bare name (a literal, a group, a call, a binary), is no target: after any right-hand side that parses, one "Invalid assignment target." report names the `=`, after the right-hand side's own reports; the parse does not fail and the left comes back unchanged, with no `Assign` node; a failing right-hand side is the failure of the whole |
| Grouping.LiteralIsNoTarget | src/com/craftinginterpreters/lox/Parser.java:209-224 | the one-token case: a literal followed by `=` comes back as that literal, with the one report at the `=` |
| Grouping.AssignmentsGroupRight | src/com/craftinginterpreters/lox/Parser.java:209-225 | `x = y = v` is `Assign(x, Assign(y, v))`: assignment groups to the right |
| StmtRuns.PrintAtom | src/com/craftinginterpreters/lox/Parser.java:150-154 | `print a ;` is one `Print` statement and one declaration, with no report |
| StmtRuns.PrintMissingSemicolon | src/com/craftinginterpreters/lox/Parser.java:150-154 | `print a` without its `;` reports "Expect ';' after expression." at the token found instead and fails there |
| StmtRuns.SkipsThroughSemicolon | src/com/craftinginterpreters/lox/Parser.java:411-431 | recovery discards through the next `;` when no boundary comes before it |
| StmtRuns.MalformedPrint | src/com/craftinginterpreters/lox/Parser.java:45-57 | a `print` that misses its `;` before a statement keyword is one `None` entry with one report at the keyword; recovery discards through the next `;` |
| StmtRuns.PairIsExpression | src/com/craftinginterpreters/lox/Parser.java:205-301 | `a op b` is a whole expression at any level |
| StmtRuns.UnclosedGroup | src/com/craftinginterpreters/lox/Parser.java:352-356 | `( a op b` not followed by `)` fails there, with one report asking for `)` |
| StmtRuns.UnclosedGroupStatement | src/com/craftinginterpreters/lox/Parser.java:45-57 | `( a op b ;` is one `None` entry with one report at the `;`, and recovery resumes right after the `;` |
| StmtRuns.UnclosedGroupProgram | src/com/craftinginterpreters/lox/Parser.java:31-57 | the program `( a op b ; print c ;` gives a `None` entry, then the `print` statement, and one report |
| StmtRuns.AtomCondition | src/com/craftinginterpreters/lox/Parser.java:72-74 | `( a )` is a condition of one operand, with no report |
| StmtRuns.IfElsePrint | src/com/craftinginterpreters/lox/Parser.java:136-148 | `if ( a ) print b ; else print c ;` is one `If` with both branches |
| StmtRuns.IfWithoutElse | src/com/craftinginterpreters/lox/Parser.java:136-148 | an `if` whose then branch is not followed by `else` has no else branch |
| StmtRuns.ElseGoesInner | src/com/craftinginterpreters/lox/Parser.java:136-148 | in `if ( a ) if ( b ) s else t` the `else` belongs to the inner `if` and the outer one has none |
| StmtRuns.DanglingElseProgram | src/com/craftinginterpreters/lox/Parser.java:136-148 | the program `if ( a ) if ( b ) print c ; else print d ;` is one declaration, an outer `if` without `else` around an inner `if` with it |
| StmtRuns.EndlessPrint | src/com/craftinginterpreters/lox/Parser.java:92-134 | `for ( ; ; ) print a ;` is one declaration, `While(Literal(true), Print(a))` |
| StmtRuns.PrintEntry | src/com/craftinginterpreters/lox/Parser.java:33-35 | `print a ;` is one present entry of `parse()`'s list |
| StmtRuns.MalformedEntry | src/com/craftinginterpreters/lox/Parser.java:31-57 | a malformed `print` is one `None` entry of `parse()`'s list, with one report |
| StmtRuns.MalformedDeclarationsSkipped | src/com/craftinginterpreters/lox/Parser.java:31-57 | two malformed declarations in a row give exactly two reports and two `None` entries, between the well-formed statements around them, in source order |
| StmtRuns.MalformedRun | src/com/craftinginterpreters/lox/Parser.java:31-57 | the same run at any position of the loop of `parse()`, after any entries and reports, ends at the `EOF` with the same four entries and two reports appended |
| StmtRuns.PrintThenMalformed | src/com/craftinginterpreters/lox/Parser.java:31-57 | a well-formed `print` and a malformed one give a present entry, then a `None` entry with one report |
| StmtRuns.MalformedThenLast | src/com/craftinginterpreters/lox/Parser.java:31-57 | a malformed `print`, a last `print` and `EOF` end the list with `None` and that `print`, after one report |
| Scenarios.SubtractionGroupsLeft | src/com/craftinginterpreters/lox/Parser.java:279-289 | `1 - 2 - 3` parses to `Binary(Binary(1, -, 2), -, 3)` |
| Scenarios.MultiplicationBindsTighter | src/com/craftinginterpreters/lox/Parser.java:279-301 | `1 + 2 * 3` parses to `Binary(1, +, Binary(2, *, 3))` |
| Scenarios.AssignmentGroupsRight | src/com/craftinginterpreters/lox/Parser.java:209-225 | `a = b = 3` parses to `Assign(a, Assign(b, 3))` |
| Scenarios.NegationsStack | src/com/craftinginterpreters/lox/Parser.java:303-311 | `- - 3` parses to `Unary(-, Unary(-, 3))` |
| Scenarios.InvalidTargetReportedOnce | src/com/craftinginterpreters/lox/Parser.java:209-225 | `1 = 2` yields `1` and exactly one "Invalid assignment target." report, at the `=` |
| Scenarios.MissingParenRecovers | src/com/craftinginterpreters/lox/Parser.java:352-356 | `( 1 + 2 ; print 3 ;` gives one report asking for `)` at the `;`, then parses `print 3 ;` as usual |
| Scenarios.TwoMalformedDeclarations | src/com/craftinginterpreters/lox/Parser.java:31-57 | two malformed declarations give two reports and two `None` entries between the two `print` statements |
| Scenarios.EndlessForDesugars | src/com/craftinginterpreters/lox/Parser.java:92-134 | `for ( ; ; ) print 1 ;` is the single statement `While(Literal(true), Print(1))` |
| Scenarios.ElseBindsInnermost | src/com/craftinginterpreters/lox/Parser.java:136-148 | `if ( a ) if ( b ) print 1 ; else print 2 ;` gives the `else` to the inner `if` |

## Left out

- `Lox.java` is not part of this model: its file and prompt I/O, exit codes, printing of reports and the global `hadError` flag. A report keeps its token and message, and `Diagnostics.Where` gives its location text.
- The scanner, the interpreter and runtime errors are not part of this model. The token list is an input, and only its last token has to be `EOF`.
- The `TokenType` enum is not part of this model. The token kinds are distinct numbers with the enum's constant names, which is all the parser compares.
- Literal values: numbers are kept as the text the scanner read, because the parser copies them into the tree and never computes with them. Floating point is not modelled.
- `function(kind)` is modelled for the one kind this parser passes, "function". Its messages are spelled with that word.
- Exceptions are results: `ParseError` is a failure value passed up to `declaration()`, and no other exception is modelled.
- `advance()` and `synchronize()` require what Java needs to avoid an index error: `previous()` at `EOF` needs a token before the cursor. Every call the parser makes meets this, because `declaration()` is only called away from `EOF`.
- Recovery's `Boundary` is a property of the read index. The state machine with "normal" and "recovering" states is not a separate entity, because recovery is the one call `synchronize()`.
- ExprGrammar.ParseExpression: precedence is stated through `Precedence.WellNested` and the grouping lemmas over one-token operands. A pretty-printer and a print-then-parse round trip are not modelled.
- Grouping.SameLevelGroupsLeft: grouping is proved for runs of one-token operands, at any level and position. For longer operands only the `WellNested` and `Prec` contracts of `ExprGrammar.BinaryLoop` and `ExprGrammar.ParseBinary` speak: they say every tree is left-nested at each level, not which tree a given token list yields.
- ChainLemmas.CallArity, ChainLemmas.ArgumentsArity, ChainLemmas.ArityLimit, ChainLemmas.ArgumentReportTokens: that the arity limit never stops a call, the exact number of reports and their tokens are proved for one-token arguments only. A compound argument can make reports of its own, for instance a nested call with too many arguments, so the count would include those. For parameters, `ChainLemmas.ParametersArity` and `ChainLemmas.FunctionArity` cover any list of names.
