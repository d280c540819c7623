/** The parser object of Parser.java: an immutable token list, the mutable
    read index `current` and, in place of the reporter `Lox.error`, a list of
    diagnostics that grows as errors are reported.

    Every production is a method that reads and advances `current` as the
    Java method does, with the same loops, and is proved to do exactly what
    the specification function of the same production (modules ExprGrammar,
    StmtGrammar and Recovery) describes from the state it starts in: the
    same result, the same final read index and the same diagnostics. The
    exception `ParseError` is the result `ParseError`, passed up by every
    caller except `Declaration`. */
module LoxParser {
  import opened Tokens
  import opened Ast
  import opened Diagnostics
  import opened Precedence
  import Cursor
  import ExprGrammar
  import StmtGrammar
  import Recovery

  type Result<T> = Cursor.Result<T>

  class Parser {
    const tokens: seq<Token>
    var current: nat
    var diagnostics: seq<Diagnostic>

    ghost predicate Valid()
      reads this
    {
      Cursor.ValidPos(tokens, current)
    }

    constructor (tokens: seq<Token>)
      requires Cursor.WellFormed(tokens)
      ensures Valid() && this.tokens == tokens && current == 0 && diagnostics == []
    {
      this.tokens := tokens;
      current := 0;
      diagnostics := [];
    }

    // ----- the token cursor -----

    /** `isAtEnd()`: `current` is the index of the first `EOF`. */
    function IsAtEnd(): (b: bool)
      reads this
      requires Valid()
      ensures b <==> current == Cursor.FirstEnd(tokens)
    {
      Cursor.IsAtEnd(tokens, current)
    }

    /** `peek()`: the token at `current`, `EOF` only at the first `EOF`. */
    function Peek(): (t: Token)
      reads this
      requires Valid()
      ensures t == tokens[current]
      ensures t.kind == EOF <==> current == Cursor.FirstEnd(tokens)
    {
      Cursor.Peek(tokens, current)
    }

    /** `check(kind)`: never true of `EOF`; for any other kind, whether the
        token at `current` has it. */
    function Check(kind: TokenType): (b: bool)
      reads this
      requires Valid()
      ensures b ==> kind != EOF
      ensures kind != EOF ==> (b <==> tokens[current].kind == kind)
    {
      Cursor.Check(tokens, current, kind)
    }

    /** `previous()`: the token before `current`, never `EOF`. */
    function Previous(): (t: Token)
      reads this
      requires Valid() && current > 0
      ensures t == tokens[current - 1] && t.kind != EOF
    {
      Cursor.Previous(tokens, current)
    }

    /** `advance()`: step over the current token unless it is `EOF`, and
        return the token before the cursor. */
    method Advance() returns (t: Token)
      requires Valid() && (current > 0 || !IsAtEnd())
      modifies this`current
      ensures Valid() && current == Cursor.Advance(tokens, old(current)) && current > 0
      ensures t == tokens[current - 1]
    {
      if !IsAtEnd() {
        current := current + 1;
      }
      t := Previous();
    }

    /** `match(types)`: try each kind in turn; consume the current token on
        the first that `check` accepts. */
    method Match(types: seq<TokenType>) returns (matched: bool)
      requires Valid()
      modifies this`current
      ensures Valid()
      ensures matched == Cursor.Matches(tokens, old(current), types)
      ensures current == if matched then old(current) + 1 else old(current)
    {
      var i := 0;
      while i < |types|
        invariant 0 <= i <= |types| && current == old(current)
        invariant forall j :: 0 <= j < i ==> !Check(types[j])
      {
        if Check(types[i]) {
          var skipped := Advance();
          return true;
        }
        i := i + 1;
      }
      return false;
    }

    /** `consume(kind, message)`. */
    method Consume(kind: TokenType, message: Message) returns (r: Result<Token>)
      requires Valid()
      modifies this
      ensures Valid()
      ensures Cursor.Parsed(r, current, diagnostics) == Cursor.Consume(tokens, old(current), old(diagnostics), kind, message)
    {
      if Check(kind) {
        var t := Advance();
        return Cursor.Ok(t);
      }
      Error(Peek(), message);
      return Cursor.ParseError;
    }

    /** `error(token, message)`: the report `Lox.error` makes. */
    method Error(token: Token, message: Message)
      modifies this`diagnostics
      ensures diagnostics == old(diagnostics) + [Diagnostic(token, message)]
    {
      diagnostics := diagnostics + [Diagnostic(token, message)];
    }

    /** `synchronize()`. */
    method Synchronize()
      requires Valid() && (current > 0 || !IsAtEnd())
      modifies this`current
      ensures Valid() && current == Recovery.Synchronize(tokens, old(current))
    {
      var skipped := Advance();
      while !IsAtEnd()
        invariant Valid() && current > 0
        invariant Recovery.SyncLoop(tokens, current) == Recovery.Synchronize(tokens, old(current))
        decreases |tokens| - current
      {
        if Previous().kind == SEMICOLON {
          return;
        }
        if Peek().kind in Recovery.StatementStarts {
          return;
        }
        skipped := Advance();
      }
    }

    // ----- expressions -----

    /** `expression()`. */
    method Expression() returns (r: Result<Expr>)
      requires Valid()
      modifies this
      ensures Valid()
      ensures Cursor.Parsed(r, current, diagnostics) == ExprGrammar.ParseExpression(tokens, old(current), old(diagnostics))
      decreases |tokens| - current, 18
    {
      r := Assignment();
    }

    /** `assignment()`. */
    method Assignment() returns (r: Result<Expr>)
      requires Valid()
      modifies this
      ensures Valid()
      ensures Cursor.Parsed(r, current, diagnostics) == ExprGrammar.ParseAssignment(tokens, old(current), old(diagnostics))
      decreases |tokens| - current, 17
    {
      var expr := BinaryLevel(OrLevel);
      if expr.ParseError? {
        return Cursor.ParseError;
      }
      var matched := Match([EQUAL]);
      if matched {
        var equals := Previous();
        var value := Assignment();
        if value.ParseError? {
          return Cursor.ParseError;
        }
        if expr.value.Variable? {
          return Cursor.Ok(Expr.Assign(expr.value.name, value.value));
        }
        Error(equals, InvalidAssignmentTarget);
      }
      return expr;
    }

    /** The operand of a binary level. */
    method Operand(lv: Level) returns (r: Result<Expr>)
      requires Valid()
      modifies this
      ensures Valid()
      ensures Cursor.Parsed(r, current, diagnostics) == ExprGrammar.ParseOperand(lv, tokens, old(current), old(diagnostics))
      decreases |tokens| - current, 19 - 2 * LevelPrec(lv)
    {
      if lv == MultiplicationLevel {
        r := Unary();
      } else {
        r := BinaryLevel(Next(lv));
      }
    }

    /** `or()`, `and()`, `equality()`, `comparison()`, `addition()` and
        `multiplication()`, which differ only in the operators they match,
        the method they call for operands and the node they build. */
    method BinaryLevel(lv: Level) returns (r: Result<Expr>)
      requires Valid()
      modifies this
      ensures Valid()
      ensures Cursor.Parsed(r, current, diagnostics) == ExprGrammar.ParseBinary(lv, tokens, old(current), old(diagnostics))
      decreases |tokens| - current, 20 - 2 * LevelPrec(lv)
    {
      var first := Operand(lv);
      if first.ParseError? {
        return Cursor.ParseError;
      }
      r := FoldOperators(lv, first.value);
    }

    /** The `while (match(...))` loop of a binary level, starting from its
        first operand `left`. */
    method FoldOperators(lv: Level, left: Expr) returns (r: Result<Expr>)
      requires Valid()
      modifies this
      ensures Valid()
      ensures Cursor.Parsed(r, current, diagnostics) == ExprGrammar.BinaryLoop(lv, tokens, left, old(current), old(diagnostics))
      decreases |tokens| - current, 3
    {
      ghost var target := ExprGrammar.BinaryLoop(lv, tokens, left, current, diagnostics);
      var expr := left;
      var operators := Operators(lv);
      while true
        invariant Valid() && old(current) <= current
        invariant target == ExprGrammar.BinaryLoop(lv, tokens, expr, current, diagnostics)
        decreases |tokens| - current
      {
        ghost var pos, reported := current, diagnostics;
        var more := Match(operators);
        if !more {
          break;
        }
        var op := Previous();
        assert current == pos + 1 && diagnostics == reported && op == tokens[pos];
        var right := Operand(lv);
        if right.ParseError? {
          return Cursor.ParseError;
        }
        expr := ExprGrammar.Node(lv, expr, op, right.value);
      }
      return Cursor.Ok(expr);
    }

    /** `unary()`. */
    method Unary() returns (r: Result<Expr>)
      requires Valid()
      modifies this
      ensures Valid()
      ensures Cursor.Parsed(r, current, diagnostics) == ExprGrammar.ParseUnary(tokens, old(current), old(diagnostics))
      decreases |tokens| - current, 2
    {
      var matched := Match([BANG, MINUS]);
      if matched {
        var op := Previous();
        var right := Unary();
        if right.ParseError? {
          return Cursor.ParseError;
        }
        return Cursor.Ok(Expr.Unary(op, right.value));
      }
      r := Call();
    }

    /** `call()`. */
    method Call() returns (r: Result<Expr>)
      requires Valid()
      modifies this
      ensures Valid()
      ensures Cursor.Parsed(r, current, diagnostics) == ExprGrammar.ParseCall(tokens, old(current), old(diagnostics))
      decreases |tokens| - current, 1
    {
      ghost var target := ExprGrammar.ParseCall(tokens, current, diagnostics);
      var first := Primary();
      if first.ParseError? {
        return Cursor.ParseError;
      }
      var expr := first.value;
      while true
        invariant Valid() && old(current) <= current
        invariant target == ExprGrammar.CallLoop(tokens, expr, current, diagnostics)
        decreases |tokens| - current
      {
        var more := Match([LEFT_PAREN]);
        if !more {
          break;
        }
        var call := FinishCall(expr);
        if call.ParseError? {
          return Cursor.ParseError;
        }
        expr := call.value;
      }
      return Cursor.Ok(expr);
    }

    /** `finishCall(callee)`, entered just after `(`. */
    method FinishCall(callee: Expr) returns (r: Result<Expr>)
      requires Valid()
      modifies this
      ensures Valid()
      ensures Cursor.Parsed(r, current, diagnostics) == ExprGrammar.FinishCall(tokens, callee, old(current), old(diagnostics))
      decreases |tokens| - current, 21
    {
      var arguments: seq<Expr> := [];
      if !Check(RIGHT_PAREN) {
        var args := Arguments();
        if args.ParseError? {
          return Cursor.ParseError;
        }
        arguments := args.value;
      }
      var paren := Consume(RIGHT_PAREN, ExpectParenAfterArguments);
      if paren.ParseError? {
        return Cursor.ParseError;
      }
      return Cursor.Ok(Expr.Call(callee, paren.value, arguments));
    }

    /** The `do ... while (match(COMMA))` loop of `finishCall`: an argument
        beyond `MaxArgs` is reported at its first token and parsed all the
        same. */
    method Arguments() returns (r: Result<seq<Expr>>)
      requires Valid()
      modifies this
      ensures Valid()
      ensures Cursor.Parsed(r, current, diagnostics) == ExprGrammar.ParseArguments(tokens, [], old(current), old(diagnostics))
      decreases |tokens| - current, 20
    {
      ghost var target := ExprGrammar.ParseArguments(tokens, [], current, diagnostics);
      var arguments: seq<Expr> := [];
      while true
        invariant Valid() && old(current) <= current
        invariant target == ExprGrammar.ParseArguments(tokens, arguments, current, diagnostics)
        decreases |tokens| - current
      {
        if |arguments| >= MaxArgs {
          Error(Peek(), TooManyArguments);
        }
        var arg := Expression();
        if arg.ParseError? {
          return Cursor.ParseError;
        }
        arguments := arguments + [arg.value];
        var more := Match([COMMA]);
        if !more {
          break;
        }
      }
      return Cursor.Ok(arguments);
    }

    /** `primary()`. */
    method Primary() returns (r: Result<Expr>)
      requires Valid()
      modifies this
      ensures Valid()
      ensures Cursor.Parsed(r, current, diagnostics) == ExprGrammar.ParsePrimary(tokens, old(current), old(diagnostics))
      decreases |tokens| - current, 0
    {
      var matched := Match([FALSE]);
      if matched {
        return Cursor.Ok(Literal(Bool(false)));
      }
      matched := Match([TRUE]);
      if matched {
        return Cursor.Ok(Literal(Bool(true)));
      }
      matched := Match([NIL]);
      if matched {
        return Cursor.Ok(Literal(Nil));
      }
      matched := Match([NUMBER, STRING]);
      if matched {
        return Cursor.Ok(Literal(Previous().literal));
      }
      matched := Match([LEFT_PAREN]);
      if matched {
        var expr := Expression();
        if expr.ParseError? {
          return Cursor.ParseError;
        }
        var close := Consume(RIGHT_PAREN, ExpectParenAfterExpression);
        if close.ParseError? {
          return Cursor.ParseError;
        }
        return Cursor.Ok(Grouping(expr.value));
      }
      matched := Match([IDENTIFIER]);
      if matched {
        return Cursor.Ok(Variable(Previous()));
      }
      Error(Peek(), ExpectExpression);
      return Cursor.ParseError;
    }

    // ----- statements -----

    /** `parse()`: one entry per declaration until the end of input; on a
        fresh parser, exactly what `StmtGrammar.Parse` describes. */
    method Parse() returns (statements: seq<Option<Stmt>>)
      requires Valid()
      modifies this
      ensures Valid()
      ensures Cursor.Parsed(Cursor.Ok(statements), current, diagnostics) == StmtGrammar.ParseLoop(tokens, [], old(current), old(diagnostics))
      ensures old(current) == 0 && old(diagnostics) == [] ==>
                Cursor.Parsed(Cursor.Ok(statements), current, diagnostics) == StmtGrammar.Parse(tokens)
    {
      ghost var target := StmtGrammar.ParseLoop(tokens, [], current, diagnostics);
      statements := [];
      while !IsAtEnd()
        invariant Valid()
        invariant target == StmtGrammar.ParseLoop(tokens, statements, current, diagnostics)
        decreases |tokens| - current
      {
        var decl := Declaration();
        statements := statements + [decl];
      }
    }

    /** `declaration()`: a failure below is caught here, followed by
        recovery and a `None` entry. */
    method Declaration() returns (s: Option<Stmt>)
      requires Valid() && !IsAtEnd()
      modifies this
      ensures Valid()
      ensures Cursor.Parsed(Cursor.Ok(s), current, diagnostics) == StmtGrammar.ParseDeclaration(tokens, old(current), old(diagnostics))
      decreases |tokens| - current, 2
    {
      var r := AttemptDeclaration();
      ghost var attempt := Cursor.Parsed(r, current, diagnostics);
      if r.ParseError? {
        Synchronize();
        assert current == Recovery.Synchronize(tokens, attempt.pos);
        return None;
      }
      return Some(r.value);
    }

    /** The `try` block of `declaration()`. */
    method AttemptDeclaration() returns (r: Result<Stmt>)
      requires Valid()
      modifies this
      ensures Valid()
      ensures Cursor.Parsed(r, current, diagnostics) == StmtGrammar.AttemptDeclaration(tokens, old(current), old(diagnostics))
      decreases |tokens| - current, 1
    {
      ghost var target := StmtGrammar.AttemptDeclaration(tokens, current, diagnostics);
      var matched := Match([VAR]);
      if matched {
        assert target == StmtGrammar.ParseVarDeclaration(tokens, current, diagnostics);
        r := VarDeclaration();
        return;
      }
      matched := Match([FUN]);
      if matched {
        assert target == StmtGrammar.ParseFunction(tokens, current, diagnostics);
        r := Function();
        return;
      }
      assert target == StmtGrammar.ParseStatement(tokens, current, diagnostics);
      r := Statement();
    }

    /** `varDeclaration()`. */
    method VarDeclaration() returns (r: Result<Stmt>)
      requires Valid()
      modifies this
      ensures Valid()
      ensures Cursor.Parsed(r, current, diagnostics) == StmtGrammar.ParseVarDeclaration(tokens, old(current), old(diagnostics))
    {
      var name := Consume(IDENTIFIER, ExpectVariableName);
      if name.ParseError? {
        return Cursor.ParseError;
      }
      var initializer: Option<Expr> := None;
      var matched := Match([EQUAL]);
      if matched {
        var e := Expression();
        if e.ParseError? {
          return Cursor.ParseError;
        }
        initializer := Some(e.value);
      }
      var semi := Consume(SEMICOLON, ExpectSemicolonAfterVariable);
      if semi.ParseError? {
        return Cursor.ParseError;
      }
      return Cursor.Ok(Var(name.value, initializer));
    }

    /** `whileStatement()`, entered just after `while`. */
    method WhileStatement() returns (r: Result<Stmt>)
      requires Valid()
      modifies this
      ensures Valid()
      ensures Cursor.Parsed(r, current, diagnostics) == StmtGrammar.ParseWhile(tokens, old(current), old(diagnostics))
      decreases |tokens| - current, 0
    {
      var condition := Condition(ExpectParenAfterWhile, ExpectParenAfterCondition);
      if condition.ParseError? {
        return Cursor.ParseError;
      }
      var body := Statement();
      if body.ParseError? {
        return Cursor.ParseError;
      }
      return Cursor.Ok(While(condition.value, body.value));
    }

    /** The `consume(LEFT_PAREN, ...)`, `expression()`,
        `consume(RIGHT_PAREN, ...)` sequence that `whileStatement()` and
        `ifStatement()` both begin with. */
    method Condition(openMessage: Message, closeMessage: Message) returns (r: Result<Expr>)
      requires Valid()
      modifies this
      ensures Valid()
      ensures Cursor.Parsed(r, current, diagnostics) == StmtGrammar.ParseCondition(tokens, old(current), old(diagnostics), openMessage, closeMessage)
    {
      var open := Consume(LEFT_PAREN, openMessage);
      if open.ParseError? {
        return Cursor.ParseError;
      }
      var condition := Expression();
      if condition.ParseError? {
        return Cursor.ParseError;
      }
      var close := Consume(RIGHT_PAREN, closeMessage);
      if close.ParseError? {
        return Cursor.ParseError;
      }
      return condition;
    }

    /** `statement()`. */
    method Statement() returns (r: Result<Stmt>)
      requires Valid()
      modifies this
      ensures Valid()
      ensures Cursor.Parsed(r, current, diagnostics) == StmtGrammar.ParseStatement(tokens, old(current), old(diagnostics))
      decreases |tokens| - current, 0
    {
      ghost var target := StmtGrammar.ParseStatement(tokens, current, diagnostics);
      var matched := Match([FOR]);
      if matched {
        assert target == StmtGrammar.ParseFor(tokens, current, diagnostics);
        r := ForStatement();
        return;
      }
      matched := Match([IF]);
      if matched {
        assert target == StmtGrammar.ParseIf(tokens, current, diagnostics);
        r := IfStatement();
        return;
      }
      matched := Match([PRINT]);
      if matched {
        assert target == StmtGrammar.ParsePrint(tokens, current, diagnostics);
        r := PrintStatement();
        return;
      }
      matched := Match([RETURN]);
      if matched {
        assert target == StmtGrammar.ParseReturn(tokens, current, diagnostics);
        r := ReturnStatement();
        return;
      }
      matched := Match([WHILE]);
      if matched {
        assert target == StmtGrammar.ParseWhile(tokens, current, diagnostics);
        r := WhileStatement();
        return;
      }
      matched := Match([LEFT_BRACE]);
      if matched {
        assert target.pos == StmtGrammar.ParseBlock(tokens, current, diagnostics).pos;
        var statements := Block();
        if statements.ParseError? {
          return Cursor.ParseError;
        }
        return Cursor.Ok(Stmt.Block(statements.value));
      }
      assert target == StmtGrammar.ParseExpressionStatement(tokens, current, diagnostics);
      r := ExpressionStatement();
    }

    /** `forStatement()`, entered just after `for`: the clauses, the body,
        and the desugaring into `Block`, `While` and `Expression` nodes. */
    method ForStatement() returns (r: Result<Stmt>)
      requires Valid()
      modifies this
      ensures Valid()
      ensures Cursor.Parsed(r, current, diagnostics) == StmtGrammar.ParseFor(tokens, old(current), old(diagnostics))
      decreases |tokens| - current, 0
    {
      var clauses := ForClauses();
      if clauses.ParseError? {
        return Cursor.ParseError;
      }
      var body := Statement();
      if body.ParseError? {
        return Cursor.ParseError;
      }
      return Cursor.Ok(StmtGrammar.Desugar(clauses.value, body.value));
    }

    /** The header of `forStatement()`, from `(` to `)`. */
    method ForClauses() returns (r: Result<StmtGrammar.ForClauses>)
      requires Valid()
      modifies this
      ensures Valid()
      ensures Cursor.Parsed(r, current, diagnostics) == StmtGrammar.ParseForClauses(tokens, old(current), old(diagnostics))
    {
      var open := Consume(LEFT_PAREN, ExpectParenAfterFor);
      if open.ParseError? {
        return Cursor.ParseError;
      }
      var initializer := ForInitializer();
      if initializer.ParseError? {
        return Cursor.ParseError;
      }
      var condition: Option<Expr> := None;
      if !Check(SEMICOLON) {
        var c := Expression();
        if c.ParseError? {
          return Cursor.ParseError;
        }
        condition := Some(c.value);
      }
      var semi := Consume(SEMICOLON, ExpectSemicolonAfterLoopCondition);
      if semi.ParseError? {
        return Cursor.ParseError;
      }
      var increment: Option<Expr> := None;
      if !Check(RIGHT_PAREN) {
        var i := Expression();
        if i.ParseError? {
          return Cursor.ParseError;
        }
        increment := Some(i.value);
      }
      var close := Consume(RIGHT_PAREN, ExpectParenAfterForClauses);
      if close.ParseError? {
        return Cursor.ParseError;
      }
      return Cursor.Ok(StmtGrammar.ForClauses(initializer.value, condition, increment));
    }

    /** The initializer clause of `forStatement()`. */
    method ForInitializer() returns (r: Result<Option<Stmt>>)
      requires Valid()
      modifies this
      ensures Valid()
      ensures Cursor.Parsed(r, current, diagnostics) == StmtGrammar.ParseForInitializer(tokens, old(current), old(diagnostics))
    {
      var matched := Match([SEMICOLON]);
      if matched {
        return Cursor.Ok(None);
      }
      matched := Match([VAR]);
      var init: Result<Stmt>;
      if matched {
        init := VarDeclaration();
      } else {
        init := ExpressionStatement();
      }
      if init.ParseError? {
        return Cursor.ParseError;
      }
      return Cursor.Ok(Some(init.value));
    }

    /** `ifStatement()`, entered just after `if`. */
    method IfStatement() returns (r: Result<Stmt>)
      requires Valid()
      modifies this
      ensures Valid()
      ensures Cursor.Parsed(r, current, diagnostics) == StmtGrammar.ParseIf(tokens, old(current), old(diagnostics))
      decreases |tokens| - current, 0
    {
      var condition := Condition(ExpectParenAfterIf, ExpectParenAfterIfCondition);
      if condition.ParseError? {
        return Cursor.ParseError;
      }
      var thenBranch := Statement();
      if thenBranch.ParseError? {
        return Cursor.ParseError;
      }
      ghost var thenEnd := Cursor.Parsed(thenBranch, current, diagnostics);
      var elseBranch: Option<Stmt> := None;
      var matched := Match([ELSE]);
      if matched {
        var e := Statement();
        if e.ParseError? {
          return Cursor.ParseError;
        }
        elseBranch := Some(e.value);
      }
      assert Cursor.Parsed(Cursor.Ok(elseBranch), current, diagnostics) == StmtGrammar.ParseElse(tokens, thenEnd.pos, thenEnd.diags);
      return Cursor.Ok(If(condition.value, thenBranch.value, elseBranch));
    }

    /** `printStatement()`. */
    method PrintStatement() returns (r: Result<Stmt>)
      requires Valid()
      modifies this
      ensures Valid()
      ensures Cursor.Parsed(r, current, diagnostics) == StmtGrammar.ParsePrint(tokens, old(current), old(diagnostics))
    {
      var value := Expression();
      if value.ParseError? {
        return Cursor.ParseError;
      }
      var semi := Consume(SEMICOLON, ExpectSemicolonAfterExpression);
      if semi.ParseError? {
        return Cursor.ParseError;
      }
      return Cursor.Ok(Print(value.value));
    }

    /** `returnStatement()`, entered just after the `return` keyword. */
    method ReturnStatement() returns (r: Result<Stmt>)
      requires Valid() && current > 0
      modifies this
      ensures Valid()
      ensures Cursor.Parsed(r, current, diagnostics) == StmtGrammar.ParseReturn(tokens, old(current), old(diagnostics))
    {
      var keyword := Previous();
      var value: Option<Expr> := None;
      if !Check(SEMICOLON) {
        var e := Expression();
        if e.ParseError? {
          return Cursor.ParseError;
        }
        value := Some(e.value);
      }
      var semi := Consume(SEMICOLON, ExpectSemicolonAfterReturnValue);
      if semi.ParseError? {
        return Cursor.ParseError;
      }
      return Cursor.Ok(Return(keyword, value));
    }

    /** `expressionStatement()`. */
    method ExpressionStatement() returns (r: Result<Stmt>)
      requires Valid()
      modifies this
      ensures Valid()
      ensures Cursor.Parsed(r, current, diagnostics) == StmtGrammar.ParseExpressionStatement(tokens, old(current), old(diagnostics))
    {
      var expr := Expression();
      if expr.ParseError? {
        return Cursor.ParseError;
      }
      var semi := Consume(SEMICOLON, ExpectSemicolonAfterExpression);
      if semi.ParseError? {
        return Cursor.ParseError;
      }
      return Cursor.Ok(Stmt.Expression(expr.value));
    }

    /** `function(kind)`, entered just after `fun`. */
    method Function() returns (r: Result<Stmt>)
      requires Valid()
      modifies this
      ensures Valid()
      ensures Cursor.Parsed(r, current, diagnostics) == StmtGrammar.ParseFunction(tokens, old(current), old(diagnostics))
      decreases |tokens| - current, 0
    {
      var header := FunctionHeader();
      if header.ParseError? {
        return Cursor.ParseError;
      }
      var body := Block();
      if body.ParseError? {
        return Cursor.ParseError;
      }
      return Cursor.Ok(Stmt.Function(header.value.0, header.value.1, body.value));
    }

    /** The part of `function(kind)` before `block()`: the name, the
        parenthesised parameter list and the `{` that opens the body. */
    method FunctionHeader() returns (r: Result<(Token, seq<Token>)>)
      requires Valid()
      modifies this
      ensures Valid()
      ensures Cursor.Parsed(r, current, diagnostics) == StmtGrammar.ParseFunctionHeader(tokens, old(current), old(diagnostics))
    {
      var name := Consume(IDENTIFIER, ExpectFunctionName);
      if name.ParseError? {
        return Cursor.ParseError;
      }
      var open := Consume(LEFT_PAREN, ExpectParenAfterFunctionName);
      if open.ParseError? {
        return Cursor.ParseError;
      }
      var parameters: seq<Token> := [];
      if !Check(RIGHT_PAREN) {
        var params := Parameters();
        if params.ParseError? {
          return Cursor.ParseError;
        }
        parameters := params.value;
      }
      var close := Consume(RIGHT_PAREN, ExpectParenAfterParameters);
      if close.ParseError? {
        return Cursor.ParseError;
      }
      var brace := Consume(LEFT_BRACE, ExpectBraceBeforeFunctionBody);
      if brace.ParseError? {
        return Cursor.ParseError;
      }
      return Cursor.Ok((name.value, parameters));
    }

    /** The `do ... while (match(COMMA))` loop of `function(kind)`: a
        parameter beyond `MaxArgs` is reported and read all the same. */
    method Parameters() returns (r: Result<seq<Token>>)
      requires Valid()
      modifies this
      ensures Valid()
      ensures Cursor.Parsed(r, current, diagnostics) == StmtGrammar.ParseParameters(tokens, [], old(current), old(diagnostics))
    {
      ghost var target := StmtGrammar.ParseParameters(tokens, [], current, diagnostics);
      var parameters: seq<Token> := [];
      while true
        invariant Valid()
        invariant target == StmtGrammar.ParseParameters(tokens, parameters, current, diagnostics)
        decreases |tokens| - current
      {
        if |parameters| >= MaxArgs {
          Error(Peek(), TooManyParameters);
        }
        var param := Consume(IDENTIFIER, ExpectParameterName);
        if param.ParseError? {
          return Cursor.ParseError;
        }
        parameters := parameters + [param.value];
        var more := Match([COMMA]);
        if !more {
          break;
        }
      }
      return Cursor.Ok(parameters);
    }

    /** `block()`, entered just after `{`. */
    method Block() returns (r: Result<seq<Option<Stmt>>>)
      requires Valid()
      modifies this
      ensures Valid()
      ensures Cursor.Parsed(r, current, diagnostics) == StmtGrammar.ParseBlock(tokens, old(current), old(diagnostics))
      decreases |tokens| - current, 4
    {
      ghost var statementsSpec := StmtGrammar.BlockLoop(tokens, [], current, diagnostics);
      var statements: seq<Option<Stmt>> := [];
      while !Check(RIGHT_BRACE) && !IsAtEnd()
        invariant Valid() && old(current) <= current
        invariant statementsSpec == StmtGrammar.BlockLoop(tokens, statements, current, diagnostics)
        decreases |tokens| - current
      {
        var decl := Declaration();
        statements := statements + [decl];
      }
      var close := Consume(RIGHT_BRACE, ExpectBraceAfterBlock);
      if close.ParseError? {
        return Cursor.ParseError;
      }
      return Cursor.Ok(statements);
    }
  }
}
