/** The statement grammar of Parser.java (declaration, var, function,
    statement, for, if, print, return, while, block, expression statement)
    and its entry point `parse()`, as functions of the token list, a read
    index and the diagnostics reported so far, in the style of the
    expression chain. */
module StmtGrammar {
  import opened Tokens
  import opened Ast
  import opened Diagnostics
  import opened Cursor
  import opened ExprGrammar
  import opened Recovery

  /** A statement production steps forward and consumes at least one token
      when it succeeds. */
  predicate Consumes<T>(toks: seq<Token>, pos: nat, r: Parsed<T>)
  {
    Steps(toks, pos, r) && (r.result.Ok? ==> r.pos > pos)
  }

  /** An optional expression: parsed when `present`, else absent with the
      cursor unmoved (the `if (!check(...)) expression()` and
      `if (match(EQUAL)) expression()` of the source). */
  function MaybeExpression(toks: seq<Token>, pos: nat, diags: seq<Diagnostic>, present: bool): (r: Parsed<Option<Expr>>)
    requires ValidPos(toks, pos)
    ensures Steps(toks, pos, r)
    ensures Reports(diags, r)
    ensures r.result.Ok? ==> (r.result.value.Some? <==> present)
  {
    if !present then Parsed(Ok(None), pos, diags)
    else
      var e := ParseExpression(toks, pos, diags);
      if e.result.ParseError? then Parsed(ParseError, e.pos, e.diags)
      else Parsed(Ok(Some(e.result.value)), e.pos, e.diags)
  }

  /** `varDeclaration()`, entered after `var`: a name, an optional
      `= initializer`, and `;`. */
  function ParseVarDeclaration(toks: seq<Token>, pos: nat, diags: seq<Diagnostic>): (r: Parsed<Stmt>)
    requires ValidPos(toks, pos)
    ensures Consumes(toks, pos, r)
    ensures Reports(diags, r)
    ensures r.result.Ok? && r.diags == diags ==> Complete(r.result.value)
    ensures r.result.Ok? ==> r.result.value.Var? && r.result.value.name == toks[pos] && toks[pos].kind == IDENTIFIER
    ensures r.result.Ok? ==> (r.result.value.initializer.Some? <==> toks[pos + 1].kind == EQUAL)
    ensures r.result.Ok? ==> toks[r.pos - 1].kind == SEMICOLON
    ensures toks[pos].kind != IDENTIFIER ==> r == Parsed(ParseError, pos, diags + [Diagnostic(toks[pos], ExpectVariableName)])
  {
    var name := Consume(toks, pos, diags, IDENTIFIER, ExpectVariableName);
    if name.result.ParseError? then Parsed(ParseError, name.pos, name.diags)
    else
      var hasInit := Matches(toks, name.pos, [EQUAL]);
      var init := MaybeExpression(toks, if hasInit then name.pos + 1 else name.pos, name.diags, hasInit);
      if init.result.ParseError? then Parsed(ParseError, init.pos, init.diags)
      else
        var semi := Consume(toks, init.pos, init.diags, SEMICOLON, ExpectSemicolonAfterVariable);
        if semi.result.ParseError? then Parsed(ParseError, semi.pos, semi.diags)
        else Parsed(Ok(Var(name.result.value, init.result.value)), semi.pos, semi.diags)
  }

  /** A parenthesised condition, as `whileStatement()` and `ifStatement()`
      read it: `(`, an expression, `)`. */
  function ParseCondition(toks: seq<Token>, pos: nat, diags: seq<Diagnostic>, openMessage: Message, closeMessage: Message): (r: Parsed<Expr>)
    requires ValidPos(toks, pos)
    ensures Consumes(toks, pos, r)
    ensures Reports(diags, r)
    ensures r.result.Ok? ==> toks[pos].kind == LEFT_PAREN && toks[r.pos - 1].kind == RIGHT_PAREN
    ensures toks[pos].kind != LEFT_PAREN ==> r == Parsed(ParseError, pos, diags + [Diagnostic(toks[pos], openMessage)])
  {
    var open := Consume(toks, pos, diags, LEFT_PAREN, openMessage);
    if open.result.ParseError? then Parsed(ParseError, open.pos, open.diags)
    else
      var condition := ParseExpression(toks, open.pos, open.diags);
      if condition.result.ParseError? then condition
      else
        var close := Consume(toks, condition.pos, condition.diags, RIGHT_PAREN, closeMessage);
        if close.result.ParseError? then Parsed(ParseError, close.pos, close.diags)
        else Parsed(Ok(condition.result.value), close.pos, close.diags)
  }

  /** `printStatement()`, entered after `print`. */
  function ParsePrint(toks: seq<Token>, pos: nat, diags: seq<Diagnostic>): (r: Parsed<Stmt>)
    requires ValidPos(toks, pos)
    ensures Consumes(toks, pos, r)
    ensures Reports(diags, r)
    ensures r.result.Ok? && r.diags == diags ==> Complete(r.result.value)
    ensures r.result.Ok? ==> r.result.value.Print? && toks[r.pos - 1].kind == SEMICOLON
  {
    var e := ParseExpression(toks, pos, diags);
    if e.result.ParseError? then Parsed(ParseError, e.pos, e.diags)
    else
      var semi := Consume(toks, e.pos, e.diags, SEMICOLON, ExpectSemicolonAfterExpression);
      if semi.result.ParseError? then Parsed(ParseError, semi.pos, semi.diags)
      else Parsed(Ok(Print(e.result.value)), semi.pos, semi.diags)
  }

  /** `returnStatement()`, entered after `return`, which it keeps as the
      node's keyword; the value is absent exactly when `;` follows at once. */
  function ParseReturn(toks: seq<Token>, pos: nat, diags: seq<Diagnostic>): (r: Parsed<Stmt>)
    requires ValidPos(toks, pos) && pos > 0
    ensures Consumes(toks, pos, r)
    ensures Reports(diags, r)
    ensures r.result.Ok? && r.diags == diags ==> Complete(r.result.value)
    ensures r.result.Ok? ==> r.result.value.Return? && r.result.value.keyword == toks[pos - 1]
    ensures r.result.Ok? ==> (r.result.value.value.None? <==> Check(toks, pos, SEMICOLON))
    ensures r.result.Ok? ==> toks[r.pos - 1].kind == SEMICOLON
  {
    var value := MaybeExpression(toks, pos, diags, !Check(toks, pos, SEMICOLON));
    if value.result.ParseError? then Parsed(ParseError, value.pos, value.diags)
    else
      var semi := Consume(toks, value.pos, value.diags, SEMICOLON, ExpectSemicolonAfterReturnValue);
      if semi.result.ParseError? then Parsed(ParseError, semi.pos, semi.diags)
      else Parsed(Ok(Return(toks[pos - 1], value.result.value)), semi.pos, semi.diags)
  }

  /** `expressionStatement()`: an expression and `;`. */
  function ParseExpressionStatement(toks: seq<Token>, pos: nat, diags: seq<Diagnostic>): (r: Parsed<Stmt>)
    requires ValidPos(toks, pos)
    ensures Consumes(toks, pos, r)
    ensures Reports(diags, r)
    ensures r.result.Ok? && r.diags == diags ==> Complete(r.result.value)
    ensures r.result.Ok? ==> r.result.value.Expression? && toks[r.pos - 1].kind == SEMICOLON
  {
    var e := ParseExpression(toks, pos, diags);
    if e.result.ParseError? then Parsed(ParseError, e.pos, e.diags)
    else
      var semi := Consume(toks, e.pos, e.diags, SEMICOLON, ExpectSemicolonAfterExpression);
      if semi.result.ParseError? then Parsed(ParseError, semi.pos, semi.diags)
      else Parsed(Ok(Expression(e.result.value)), semi.pos, semi.diags)
  }

  /** The three clauses of a `for` header. */
  datatype ForClauses = ForClauses(initializer: Option<Stmt>, condition: Option<Expr>, increment: Option<Expr>)

  /** The initializer clause: `;` alone, a variable declaration, or an
      expression statement (each of the last two ends with its own `;`). */
  function ParseForInitializer(toks: seq<Token>, pos: nat, diags: seq<Diagnostic>): (r: Parsed<Option<Stmt>>)
    requires ValidPos(toks, pos)
    ensures Consumes(toks, pos, r)
    ensures Reports(diags, r)
    ensures r.result.Ok? && r.diags == diags && r.result.value.Some? ==> Complete(r.result.value.value)
  {
    if Matches(toks, pos, [SEMICOLON]) then Parsed(Ok(None), pos + 1, diags)
    else
      var init := if Matches(toks, pos, [VAR]) then ParseVarDeclaration(toks, pos + 1, diags)
                  else ParseExpressionStatement(toks, pos, diags);
      if init.result.ParseError? then Parsed(ParseError, init.pos, init.diags)
      else Parsed(Ok(Some(init.result.value)), init.pos, init.diags)
  }

  /** The header of `forStatement()` from `(` to `)`: the `(`, the
      initializer clause, then the rest in `ParseForTail`. */
  function ParseForClauses(toks: seq<Token>, pos: nat, diags: seq<Diagnostic>): (r: Parsed<ForClauses>)
    requires ValidPos(toks, pos)
    ensures Consumes(toks, pos, r)
    ensures Reports(diags, r)
    ensures r.result.Ok? && r.diags == diags && r.result.value.initializer.Some? ==> Complete(r.result.value.initializer.value)
  {
    var open := Consume(toks, pos, diags, LEFT_PAREN, ExpectParenAfterFor);
    if open.result.ParseError? then Parsed(ParseError, open.pos, open.diags)
    else
      var init := ParseForInitializer(toks, open.pos, open.diags);
      if init.result.ParseError? then Parsed(ParseError, init.pos, init.diags)
      else
        var tail := ParseForTail(toks, init.pos, init.diags);
        if tail.result.ParseError? then Parsed(ParseError, tail.pos, tail.diags)
        else
          Parsed(Ok(ForClauses(init.result.value, tail.result.value.0, tail.result.value.1)), tail.pos, tail.diags)
  }

  /** The header of `forStatement()` after the initializer clause: the
      condition is absent when `;` comes first, the increment when `)`
      follows the condition's `;`. */
  function ParseForTail(toks: seq<Token>, pos: nat, diags: seq<Diagnostic>): (r: Parsed<(Option<Expr>, Option<Expr>)>)
    requires ValidPos(toks, pos)
    ensures Consumes(toks, pos, r)
    ensures Reports(diags, r)
    ensures r.result.Ok? ==> (r.result.value.0.None? <==> Check(toks, pos, SEMICOLON))
    ensures r.result.Ok? ==> toks[r.pos - 1].kind == RIGHT_PAREN
  {
    var condition := MaybeExpression(toks, pos, diags, !Check(toks, pos, SEMICOLON));
    if condition.result.ParseError? then Parsed(ParseError, condition.pos, condition.diags)
    else
      var semi := Consume(toks, condition.pos, condition.diags, SEMICOLON, ExpectSemicolonAfterLoopCondition);
      if semi.result.ParseError? then Parsed(ParseError, semi.pos, semi.diags)
      else
        var increment := MaybeExpression(toks, semi.pos, semi.diags, !Check(toks, semi.pos, RIGHT_PAREN));
        if increment.result.ParseError? then Parsed(ParseError, increment.pos, increment.diags)
        else
          var close := Consume(toks, increment.pos, increment.diags, RIGHT_PAREN, ExpectParenAfterForClauses);
          if close.result.ParseError? then Parsed(ParseError, close.pos, close.diags)
          else
            Parsed(Ok((condition.result.value, increment.result.value)), close.pos, close.diags)
  }

  /** The desugaring of a `for` loop: the body runs the increment after
      itself, the loop runs while the condition (or `true`) holds, and the
      initializer runs once before the loop. */
  function Desugar(clauses: ForClauses, body: Stmt): (r: Stmt)
    ensures Complete(body) && (clauses.initializer.Some? ==> Complete(clauses.initializer.value)) ==> Complete(r)
  {
    var withIncrement :=
      if clauses.increment.Some? then Block([Some(body), Some(Expression(clauses.increment.value))]) else body;
    var condition := if clauses.condition.Some? then clauses.condition.value else Literal(Bool(true));
    var loop := While(condition, withIncrement);
    assert Complete(body) ==> Complete(withIncrement) && Complete(loop);
    if clauses.initializer.Some? then Block([Some(clauses.initializer.value), Some(loop)]) else loop
  }

  /** The header of `function(kind)`, entered after `fun`: the name, the
      parameter list and the `{` that opens the body. */
  function ParseFunctionHeader(toks: seq<Token>, pos: nat, diags: seq<Diagnostic>): (r: Parsed<(Token, seq<Token>)>)
    requires ValidPos(toks, pos)
    ensures Consumes(toks, pos, r)
    ensures Reports(diags, r)
    ensures r.result.Ok? ==> r.result.value.0.kind == IDENTIFIER && forall i :: 0 <= i < |r.result.value.1| ==> r.result.value.1[i].kind == IDENTIFIER
  {
    var name := Consume(toks, pos, diags, IDENTIFIER, ExpectFunctionName);
    if name.result.ParseError? then Parsed(ParseError, name.pos, name.diags)
    else
      var open := Consume(toks, name.pos, name.diags, LEFT_PAREN, ExpectParenAfterFunctionName);
      if open.result.ParseError? then Parsed(ParseError, open.pos, open.diags)
      else
        var params := if Check(toks, open.pos, RIGHT_PAREN) then Parsed(Ok([]), open.pos, open.diags)
                      else ParseParameters(toks, [], open.pos, open.diags);
        if params.result.ParseError? then Parsed(ParseError, params.pos, params.diags)
        else
          var close := Consume(toks, params.pos, params.diags, RIGHT_PAREN, ExpectParenAfterParameters);
          if close.result.ParseError? then Parsed(ParseError, close.pos, close.diags)
          else
            var brace := Consume(toks, close.pos, close.diags, LEFT_BRACE, ExpectBraceBeforeFunctionBody);
            if brace.result.ParseError? then Parsed(ParseError, brace.pos, brace.diags)
            else Parsed(Ok((name.result.value, params.result.value)), brace.pos, brace.diags)
  }

  /** The `do ... while (match(COMMA))` loop of `function(kind)`, with the
      parameters read so far: a parameter beyond `MaxArgs` is reported and
      read all the same. */
  function ParseParameters(toks: seq<Token>, params: seq<Token>, pos: nat, diags: seq<Diagnostic>): (r: Parsed<seq<Token>>)
    requires ValidPos(toks, pos)
    ensures Steps(toks, pos, r)
    ensures Reports(diags, r)
    ensures r.result.Ok? ==> |r.result.value| > |params| && r.result.value[..|params|] == params
    ensures r.result.Ok? && (forall i :: 0 <= i < |params| ==> params[i].kind == IDENTIFIER) ==>
              forall i :: 0 <= i < |r.result.value| ==> r.result.value[i].kind == IDENTIFIER
    decreases |toks| - pos
  {
    var param := Consume(toks, pos, ReportArity(toks, pos, diags, |params|, TooManyParameters), IDENTIFIER, ExpectParameterName);
    if param.result.ParseError? then Parsed(ParseError, param.pos, param.diags)
    else if Matches(toks, param.pos, [COMMA]) then
      ParseParameters(toks, params + [param.result.value], param.pos + 1, param.diags)
    else Parsed(Ok(params + [param.result.value]), param.pos, param.diags)
  }

  /** `declaration()`: a variable or function declaration or a statement.
      A failure is not passed on: the parser synchronizes and yields `None`
      (Java's `null`). Its callers only call it away from the end of input. */
  function ParseDeclaration(toks: seq<Token>, pos: nat, diags: seq<Diagnostic>): (r: Parsed<Option<Stmt>>)
    requires ValidPos(toks, pos) && !IsAtEnd(toks, pos)
    ensures Consumes(toks, pos, r) && r.result.Ok?
    ensures Reports(diags, r)
    ensures r.diags == diags ==> r.result.value.Some? && Complete(r.result.value.value)
    ensures r.result.value.None? ==> |r.diags| > |diags| && Boundary(toks, r.pos)
    decreases |toks| - pos, 2
  {
    var attempt := AttemptDeclaration(toks, pos, diags);
    if attempt.result.Ok? then Parsed(Ok(Some(attempt.result.value)), attempt.pos, attempt.diags)
    else
      SynchronizeStops(toks, attempt.pos);
      Parsed(Ok(None), Synchronize(toks, attempt.pos), attempt.diags)
  }

  /** What `declaration()` makes of its attempt: a statement the attempt
      builds is kept as it is, with the attempt's position and reports; a
      failed attempt, and only a failed one, becomes a `None` entry, with
      the cursor where `synchronize()` leaves it and no further report. */
  lemma DeclarationOutcome(toks: seq<Token>, pos: nat, diags: seq<Diagnostic>)
    requires ValidPos(toks, pos) && !IsAtEnd(toks, pos)
    ensures var a := AttemptDeclaration(toks, pos, diags);
      var r := ParseDeclaration(toks, pos, diags);
      (a.result.ParseError? <==> r.result.value.None?) &&
      (a.result.Ok? ==> r == Parsed(Ok(Some(a.result.value)), a.pos, a.diags)) &&
      (a.result.ParseError? ==> r == Parsed(Ok(None), Synchronize(toks, a.pos), a.diags))
  {
  }

  /** The `try` block of `declaration()`: a variable declaration, a function
      declaration or a statement, passing any failure on. */
  function AttemptDeclaration(toks: seq<Token>, pos: nat, diags: seq<Diagnostic>): (r: Parsed<Stmt>)
    requires ValidPos(toks, pos)
    ensures Consumes(toks, pos, r)
    ensures Reports(diags, r)
    ensures r.result.Ok? && r.diags == diags ==> Complete(r.result.value)
    decreases |toks| - pos, 1
  {
    if Matches(toks, pos, [VAR]) then ParseVarDeclaration(toks, pos + 1, diags)
    else if Matches(toks, pos, [FUN]) then ParseFunction(toks, pos + 1, diags)
    else ParseStatement(toks, pos, diags)
  }

  /** `function(kind)`, entered after `fun`. */
  function ParseFunction(toks: seq<Token>, pos: nat, diags: seq<Diagnostic>): (r: Parsed<Stmt>)
    requires ValidPos(toks, pos)
    ensures Consumes(toks, pos, r)
    ensures Reports(diags, r)
    ensures r.result.Ok? && r.diags == diags ==> Complete(r.result.value)
    decreases |toks| - pos, 0
  {
    var header := ParseFunctionHeader(toks, pos, diags);
    if header.result.ParseError? then Parsed(ParseError, header.pos, header.diags)
    else
      var body := ParseBlock(toks, header.pos, header.diags);
      if body.result.ParseError? then Parsed(ParseError, body.pos, body.diags)
      else Parsed(Ok(Function(header.result.value.0, header.result.value.1, body.result.value)), body.pos, body.diags)
  }

  /** `statement()`: dispatch on the leading keyword, else an expression
      statement. */
  function ParseStatement(toks: seq<Token>, pos: nat, diags: seq<Diagnostic>): (r: Parsed<Stmt>)
    requires ValidPos(toks, pos)
    ensures Consumes(toks, pos, r)
    ensures Reports(diags, r)
    ensures r.result.Ok? && r.diags == diags ==> Complete(r.result.value)
    decreases |toks| - pos, 0
  {
    if Matches(toks, pos, [FOR]) then ParseFor(toks, pos + 1, diags)
    else if Matches(toks, pos, [IF]) then ParseIf(toks, pos + 1, diags)
    else if Matches(toks, pos, [PRINT]) then ParsePrint(toks, pos + 1, diags)
    else if Matches(toks, pos, [RETURN]) then ParseReturn(toks, pos + 1, diags)
    else if Matches(toks, pos, [WHILE]) then ParseWhile(toks, pos + 1, diags)
    else if Matches(toks, pos, [LEFT_BRACE]) then
      var statements := ParseBlock(toks, pos + 1, diags);
      if statements.result.ParseError? then Parsed(ParseError, statements.pos, statements.diags)
      else Parsed(Ok(Block(statements.result.value)), statements.pos, statements.diags)
    else ParseExpressionStatement(toks, pos, diags)
  }

  /** `forStatement()`, entered after `for`. */
  function ParseFor(toks: seq<Token>, pos: nat, diags: seq<Diagnostic>): (r: Parsed<Stmt>)
    requires ValidPos(toks, pos)
    ensures Consumes(toks, pos, r)
    ensures Reports(diags, r)
    ensures r.result.Ok? && r.diags == diags ==> Complete(r.result.value)
    decreases |toks| - pos, 0
  {
    var clauses := ParseForClauses(toks, pos, diags);
    if clauses.result.ParseError? then Parsed(ParseError, clauses.pos, clauses.diags)
    else
      var body := ParseStatement(toks, clauses.pos, clauses.diags);
      if body.result.ParseError? then body
      else Parsed(Ok(Desugar(clauses.result.value, body.result.value)), body.pos, body.diags)
  }

  /** `ifStatement()`, entered after `if`: an `else` right after the then
      branch belongs to this `if`. */
  function ParseIf(toks: seq<Token>, pos: nat, diags: seq<Diagnostic>): (r: Parsed<Stmt>)
    requires ValidPos(toks, pos)
    ensures Consumes(toks, pos, r)
    ensures Reports(diags, r)
    ensures r.result.Ok? && r.diags == diags ==> Complete(r.result.value)
    decreases |toks| - pos, 0
  {
    var condition := ParseCondition(toks, pos, diags, ExpectParenAfterIf, ExpectParenAfterIfCondition);
    if condition.result.ParseError? then Parsed(ParseError, condition.pos, condition.diags)
    else
      var thenBranch := ParseStatement(toks, condition.pos, condition.diags);
      if thenBranch.result.ParseError? then thenBranch
      else
        var elseBranch := ParseElse(toks, thenBranch.pos, thenBranch.diags);
        if elseBranch.result.ParseError? then Parsed(ParseError, elseBranch.pos, elseBranch.diags)
        else Parsed(Ok(If(condition.result.value, thenBranch.result.value, elseBranch.result.value)), elseBranch.pos, elseBranch.diags)
  }

  /** The optional `else` branch of `ifStatement()`: present exactly when
      `else` is the next token, which it then consumes. */
  function ParseElse(toks: seq<Token>, pos: nat, diags: seq<Diagnostic>): (r: Parsed<Option<Stmt>>)
    requires ValidPos(toks, pos)
    ensures Steps(toks, pos, r)
    ensures Reports(diags, r)
    ensures r.result.Ok? && r.diags == diags && r.result.value.Some? ==> Complete(r.result.value.value)
    decreases |toks| - pos, 0
  {
    if !Matches(toks, pos, [ELSE]) then Parsed(Ok(None), pos, diags)
    else
      var elseBranch := ParseStatement(toks, pos + 1, diags);
      if elseBranch.result.ParseError? then Parsed(ParseError, elseBranch.pos, elseBranch.diags)
      else Parsed(Ok(Some(elseBranch.result.value)), elseBranch.pos, elseBranch.diags)
  }

  /** `whileStatement()`, entered after `while`. */
  function ParseWhile(toks: seq<Token>, pos: nat, diags: seq<Diagnostic>): (r: Parsed<Stmt>)
    requires ValidPos(toks, pos)
    ensures Consumes(toks, pos, r)
    ensures Reports(diags, r)
    ensures r.result.Ok? && r.diags == diags ==> Complete(r.result.value)
    ensures r.result.Ok? ==> r.result.value.While? && toks[pos].kind == LEFT_PAREN
    ensures toks[pos].kind != LEFT_PAREN ==> r == Parsed(ParseError, pos, diags + [Diagnostic(toks[pos], ExpectParenAfterWhile)])
    decreases |toks| - pos, 0
  {
    var condition := ParseCondition(toks, pos, diags, ExpectParenAfterWhile, ExpectParenAfterCondition);
    if condition.result.ParseError? then Parsed(ParseError, condition.pos, condition.diags)
    else
      var body := ParseStatement(toks, condition.pos, condition.diags);
      if body.result.ParseError? then body
      else Parsed(Ok(While(condition.result.value, body.result.value)), body.pos, body.diags)
  }

  /** `block()`, entered after `{`: declarations up to `}` or the end of
      input, then the `}` that must close the block. */
  function ParseBlock(toks: seq<Token>, pos: nat, diags: seq<Diagnostic>): (r: Parsed<seq<Option<Stmt>>>)
    requires ValidPos(toks, pos)
    ensures Consumes(toks, pos, r)
    ensures Reports(diags, r)
    ensures r.result.Ok? && r.diags == diags ==> AllComplete(r.result.value)
    ensures r.result.Ok? ==> toks[r.pos - 1].kind == RIGHT_BRACE && |r.result.value| < r.pos - pos
    decreases |toks| - pos, 4
  {
    var statements := BlockLoop(toks, [], pos, diags);
    var close := Consume(toks, statements.pos, statements.diags, RIGHT_BRACE, ExpectBraceAfterBlock);
    if close.result.ParseError? then Parsed(ParseError, close.pos, close.diags)
    else Parsed(Ok(statements.result.value), close.pos, close.diags)
  }

  /** The `while (!check(RIGHT_BRACE) && !isAtEnd())` loop of `block()`,
      with the declarations read so far. It cannot fail. */
  function BlockLoop(toks: seq<Token>, stmts: seq<Option<Stmt>>, pos: nat, diags: seq<Diagnostic>): (r: Parsed<seq<Option<Stmt>>>)
    requires ValidPos(toks, pos)
    ensures Steps(toks, pos, r) && r.result.Ok?
    ensures Reports(diags, r)
    ensures |r.result.value| >= |stmts| && r.result.value[..|stmts|] == stmts
    ensures |r.result.value| - |stmts| <= r.pos - pos
    ensures r.diags == diags && AllComplete(stmts) ==> AllComplete(r.result.value)
    decreases |toks| - pos, 3
  {
    if Check(toks, pos, RIGHT_BRACE) || IsAtEnd(toks, pos) then Parsed(Ok(stmts), pos, diags)
    else
      var decl := ParseDeclaration(toks, pos, diags);
      BlockLoop(toks, stmts + [decl.result.value], decl.pos, decl.diags)
  }

  /** The loop of `parse()`, with the declarations read so far. */
  function ParseLoop(toks: seq<Token>, stmts: seq<Option<Stmt>>, pos: nat, diags: seq<Diagnostic>): (r: Parsed<seq<Option<Stmt>>>)
    requires ValidPos(toks, pos)
    ensures Steps(toks, pos, r) && r.result.Ok?
    ensures Reports(diags, r)
    ensures IsAtEnd(toks, r.pos)
    ensures |r.result.value| >= |stmts| && r.result.value[..|stmts|] == stmts
    ensures |r.result.value| - |stmts| <= r.pos - pos
    ensures r.diags == diags && AllComplete(stmts) ==> AllComplete(r.result.value)
    ensures Failed(r.result.value) <= Failed(stmts) + |r.diags| - |diags|
    decreases |toks| - pos
  {
    if IsAtEnd(toks, pos) then Parsed(Ok(stmts), pos, diags)
    else
      var decl := ParseDeclaration(toks, pos, diags);
      assert (stmts + [decl.result.value])[..|stmts|] == stmts;
      ParseLoop(toks, stmts + [decl.result.value], decl.pos, decl.diags)
  }

  /** `parse()`: declarations until the end of input. It always terminates,
      never fails, reads every token up to `EOF`, and when nothing was
      reported every declaration (at every depth) is present; each failed
      declaration among its entries was reported at least once. */
  function Parse(toks: seq<Token>): (r: Parsed<seq<Option<Stmt>>>)
    requires WellFormed(toks)
    ensures r.result.Ok? && ValidPos(toks, r.pos)
    ensures IsAtEnd(toks, r.pos) && r.pos == FirstEnd(toks)
    ensures |r.result.value| <= FirstEnd(toks)
    ensures r.diags == [] ==> AllComplete(r.result.value)
    ensures Failed(r.result.value) <= |r.diags|
  {
    var r := ParseLoop(toks, [], 0, []);
    r
  }
}
