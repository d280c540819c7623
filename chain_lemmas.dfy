/** General facts about the expression chain and the statement productions
    of Parser.java: how a lone operand passes through the levels above it
    unchanged, how a failure passes up unchanged, how many arity reports a
    call or a function header gets, and what `for (;;)` desugars to. */
module ChainLemmas {
  import opened Tokens
  import opened Ast
  import opened Diagnostics
  import opened Cursor
  import opened Precedence
  import opened ExprGrammar
  import opened StmtGrammar

  /** The kinds that `primary()` turns into a node on their own: those of
      `ExprGrammar.StartsPrimary` except `LEFT_PAREN`. The set is written
      out rather than defined through `StartsPrimary`, which keeps the
      concrete scenarios cheap to prove. */
  predicate IsAtom(kind: TokenType)
  {
    kind in {FALSE, TRUE, NIL, NUMBER, STRING, IDENTIFIER}
  }

  /** The node `primary()` builds for a one-token operand. */
  function AtomOf(t: Token): (e: Expr)
    requires IsAtom(t.kind)
    ensures e.Literal? || e == Variable(t)
  {
    if t.kind == FALSE then Literal(Bool(false))
    else if t.kind == TRUE then Literal(Bool(true))
    else if t.kind == NIL then Literal(Nil)
    else if t.kind == IDENTIFIER then Variable(t)
    else Literal(t.literal)
  }

  /** A token of this kind is no operator of precedence `p` or tighter, so a
      binary level of precedence `p` or tighter stops in front of it. */
  predicate StopsAt(kind: TokenType, p: nat)
  {
    OperatorLevel(kind).None? || LevelPrec(OperatorLevel(kind).value) < p
  }

  /** A token of this kind is no operator of a level looser than `p`. */
  predicate StaysAt(kind: TokenType, p: nat)
  {
    OperatorLevel(kind).None? || LevelPrec(OperatorLevel(kind).value) >= p
  }

  /** A token that is not the end of input has a token after it that the
      cursor may still reach. */
  lemma NextIsValid(toks: seq<Token>, pos: nat)
    requires ValidPos(toks, pos) && toks[pos].kind != EOF
    ensures ValidPos(toks, pos + 1)
  {
  }

  /** `primary()` on a one-token operand consumes just that token. */
  lemma AtomIsPrimary(toks: seq<Token>, pos: nat, diags: seq<Diagnostic>)
    requires ValidPos(toks, pos) && IsAtom(toks[pos].kind)
    ensures ParsePrimary(toks, pos, diags) == Parsed(Ok(AtomOf(toks[pos])), pos + 1, diags)
  {
  }

  /** A one-token operand not followed by `(` is a complete `unary()`. */
  lemma AtomIsUnary(toks: seq<Token>, pos: nat, diags: seq<Diagnostic>)
    requires ValidPos(toks, pos) && IsAtom(toks[pos].kind) && toks[pos + 1].kind != LEFT_PAREN
    ensures ValidPos(toks, pos + 1)
    ensures ParseUnary(toks, pos, diags) == Parsed(Ok(AtomOf(toks[pos])), pos + 1, diags)
  {
    AtomIsPrimary(toks, pos, diags);
    assert CallLoop(toks, AtomOf(toks[pos]), pos + 1, diags) == Parsed(Ok(AtomOf(toks[pos])), pos + 1, diags);
  }

  /** The result of `unary()` is the result of every binary level from `lv`
      down when it fails, or when the token after it stops all those
      levels: they add no node and report nothing. */
  lemma {:induction false} UnaryIsBinary(lv: Level, toks: seq<Token>, pos: nat, diags: seq<Diagnostic>)
    requires ValidPos(toks, pos)
    requires var u := ParseUnary(toks, pos, diags);
      u.result.ParseError? || StopsAt(toks[u.pos].kind, LevelPrec(lv))
    ensures ParseBinary(lv, toks, pos, diags) == ParseUnary(toks, pos, diags)
    decreases 7 - LevelPrec(lv)
  {
    var u := ParseUnary(toks, pos, diags);
    if lv != MultiplicationLevel {
      UnaryIsBinary(Next(lv), toks, pos, diags);
    }
    assert ParseOperand(lv, toks, pos, diags) == u;
    if u.result.Ok? {
      assert !Matches(toks, u.pos, Operators(lv));
    }
  }

  /** The result of a binary level is that of every looser level up to
      `top` when the token after it is no operator of those levels. */
  lemma {:induction false} Climb(lv: Level, top: Level, toks: seq<Token>, pos: nat, diags: seq<Diagnostic>)
    requires ValidPos(toks, pos) && LevelPrec(top) <= LevelPrec(lv)
    requires var b := ParseBinary(lv, toks, pos, diags);
      b.result.ParseError? || StaysAt(toks[b.pos].kind, LevelPrec(lv))
    ensures ParseBinary(top, toks, pos, diags) == ParseBinary(lv, toks, pos, diags)
    decreases LevelPrec(lv) - LevelPrec(top)
  {
    if top != lv {
      Climb(lv, Next(top), toks, pos, diags);
      var b := ParseBinary(lv, toks, pos, diags);
      assert ParseOperand(top, toks, pos, diags) == b;
      if b.result.Ok? {
        assert !Matches(toks, b.pos, Operators(top));
      }
    }
  }

  /** `expression()` is the result of the binary level `lv` when that
      fails, or when no looser operator and no `=` follows it. */
  lemma ExpressionIsLevel(lv: Level, toks: seq<Token>, pos: nat, diags: seq<Diagnostic>)
    requires ValidPos(toks, pos)
    requires var b := ParseBinary(lv, toks, pos, diags);
      b.result.ParseError? || (StaysAt(toks[b.pos].kind, LevelPrec(lv)) && toks[b.pos].kind != EQUAL)
    ensures ParseExpression(toks, pos, diags) == ParseBinary(lv, toks, pos, diags)
  {
    Climb(lv, OrLevel, toks, pos, diags);
  }

  /** `expression()` is the result of `unary()` when that fails, or when it
      is followed by a token that is neither an operator nor `=`. */
  lemma UnaryIsExpression(toks: seq<Token>, pos: nat, diags: seq<Diagnostic>)
    requires ValidPos(toks, pos)
    requires var u := ParseUnary(toks, pos, diags);
      u.result.ParseError? || (OperatorLevel(toks[u.pos].kind).None? && toks[u.pos].kind != EQUAL)
    ensures ParseExpression(toks, pos, diags) == ParseUnary(toks, pos, diags)
  {
    UnaryIsBinary(OrLevel, toks, pos, diags);
  }

  /** A token of this kind continues no expression: it is no operator, no
      `=` and no `(`. */
  predicate Ends(kind: TokenType)
  {
    kind != LEFT_PAREN && kind != EQUAL && OperatorLevel(kind).None?
  }

  /** A one-token operand followed by a token that continues no expression
      is a whole expression. */
  lemma AtomIsExpression(toks: seq<Token>, pos: nat, diags: seq<Diagnostic>)
    requires ValidPos(toks, pos) && IsAtom(toks[pos].kind)
    requires Ends(toks[pos + 1].kind)
    ensures ValidPos(toks, pos + 1)
    ensures ParseExpression(toks, pos, diags) == Parsed(Ok(AtomOf(toks[pos])), pos + 1, diags)
  {
    AtomIsUnary(toks, pos, diags);
    UnaryIsExpression(toks, pos, diags);
  }

  /** From `pos` on, the tokens are `n` one-token operands separated by
      commas, and what follows them continues no expression. */
  predicate AtomList(toks: seq<Token>, pos: nat, n: nat)
    decreases n
  {
    n >= 1 && pos + 2 * n <= |toks| && IsAtom(toks[pos].kind) &&
    if n == 1 then toks[pos + 1].kind != COMMA && Ends(toks[pos + 1].kind)
    else
      toks[pos + 1].kind == COMMA && AtomList(toks, pos + 2, n - 1)
  }

  /** The number of items among `n` more, `count` read already, that lie
      beyond `MaxArgs`. */
  function Excess(count: nat, n: nat): (k: nat)
    ensures k <= n
    ensures count >= MaxArgs ==> k == n
    ensures count + n <= MaxArgs ==> k == 0
  {
    if count >= MaxArgs then n else if count + n <= MaxArgs then 0 else count + n - MaxArgs
  }

  /** The argument loop of `finishCall` over `n` one-token arguments: it
      reads them all and reports each one beyond `MaxArgs` exactly once,
      with the arity message, and nothing else. */
  lemma {:induction false} ArgumentsArity(toks: seq<Token>, args: seq<Expr>, pos: nat, diags: seq<Diagnostic>, n: nat)
    requires ValidPos(toks, pos) && AtomList(toks, pos, n)
    ensures var r := ParseArguments(toks, args, pos, diags);
      r.result.Ok? && |r.result.value| == |args| + n && r.pos == pos + 2 * n - 1 &&
      diags <= r.diags && |r.diags| == |diags| + Excess(|args|, n) &&
      forall k :: |diags| <= k < |r.diags| ==> r.diags[k].message == TooManyArguments
    decreases n
  {
    ArgumentStep(toks, args, pos, diags, n);
    if n == 1 {
      TokensShift(toks, pos, n, diags, ReportArity(toks, pos, diags, |args|, TooManyArguments), ParseArguments(toks, args, pos, diags).diags, Excess(|args|, n), 0);
    } else {
      ArgumentsArity(toks, args + [AtomOf(toks[pos])], pos + 2, ReportArity(toks, pos, diags, |args|, TooManyArguments), n - 1);
    }
  }

  /** `all` extends `diags` by `e` reports, made at the tokens of the last
      `e` of the `n` arguments that start at `pos`, two tokens apart. */
  predicate ReportedAt(toks: seq<Token>, pos: nat, n: nat, diags: seq<Diagnostic>, all: seq<Diagnostic>, e: nat)
  {
    pos + 2 * n <= |toks| && e <= n && diags <= all && |all| == |diags| + e &&
    forall k :: |diags| <= k < |all| ==> all[k].token == toks[pos + 2 * (n - e + k - |diags|)]
  }

  /** Where the reports of `ArgumentsArity` are made: each one at the
      token of the argument it is about, which is `peek()` when the arity
      check runs. The arguments beyond `MaxArgs` are the last ones read. */
  lemma {:induction false} ArgumentReportTokens(toks: seq<Token>, args: seq<Expr>, pos: nat, diags: seq<Diagnostic>, n: nat)
    requires ValidPos(toks, pos) && AtomList(toks, pos, n)
    ensures ReportedAt(toks, pos, n, diags, ParseArguments(toks, args, pos, diags).diags, Excess(|args|, n))
    decreases n
  {
    ArgumentStep(toks, args, pos, diags, n);
    var reported := ReportArity(toks, pos, diags, |args|, TooManyArguments);
    if n == 1 {
      TokensShift(toks, pos, n, diags, reported, reported, Excess(|args|, n), 0);
    } else {
      var rest := ParseArguments(toks, args + [AtomOf(toks[pos])], pos + 2, reported);
      ArgumentReportTokens(toks, args + [AtomOf(toks[pos])], pos + 2, reported, n - 1);
      TokensShift(toks, pos, n, diags, reported, rest.diags, Excess(|args|, n), Excess(|args| + 1, n - 1));
    }
  }

  /** One step of `ArgumentReportTokens`: the reports after the first
      argument lie two tokens further on than the first, and the first
      argument adds its own report only when every later one does. */
  lemma TokensShift(toks: seq<Token>, pos: nat, n: nat, diags: seq<Diagnostic>, reported: seq<Diagnostic>, all: seq<Diagnostic>, e: nat, e1: nat)
    requires 0 < n && pos + 2 * n <= |toks| && e1 < n
    requires diags <= reported && |reported| <= |diags| + 1
    requires e == e1 + (|reported| - |diags|)
    requires |reported| == |diags| + 1 ==> e1 == n - 1 && reported[|diags|].token == toks[pos]
    requires n == 1 ==> all == reported
    requires n > 1 ==> ReportedAt(toks, pos + 2, n - 1, reported, all, e1)
    ensures ReportedAt(toks, pos, n, diags, all, e)
  {
    forall k | |diags| <= k < |all|
      ensures all[k].token == toks[pos + 2 * (n - e + k - |diags|)]
    {
      if k < |reported| {
        assert all[k] == reported[k];
      }
    }
  }

  /** One turn of the argument loop over a one-token argument: the arity
      check, the argument, and then either the end of the list or the next
      argument after the comma. */
  lemma ArgumentStep(toks: seq<Token>, args: seq<Expr>, pos: nat, diags: seq<Diagnostic>, n: nat)
    requires ValidPos(toks, pos) && AtomList(toks, pos, n)
    ensures ValidPos(toks, pos + 1) && (n > 1 ==> ValidPos(toks, pos + 2))
    ensures var reported := ReportArity(toks, pos, diags, |args|, TooManyArguments);
      ParseArguments(toks, args, pos, diags)
      == if n == 1 then Parsed(Ok(args + [AtomOf(toks[pos])]), pos + 1, reported)
         else ParseArguments(toks, args + [AtomOf(toks[pos])], pos + 2, reported)
  {
    AtomIsExpression(toks, pos, ReportArity(toks, pos, diags, |args|, TooManyArguments));
    if n > 1 {
      NextIsValid(toks, pos + 1);
    }
  }

  /** A call whose arguments are `n` one-token operands builds one `Call`
      node with all `n` arguments, and reports exactly the arguments beyond
      `MaxArgs`, each once: the arity limit never stops the call. */
  lemma CallArity(toks: seq<Token>, callee: Expr, pos: nat, diags: seq<Diagnostic>, n: nat)
    requires ValidPos(toks, pos) && AtomList(toks, pos, n) && toks[pos + 2 * n - 1].kind == RIGHT_PAREN
    ensures var r := FinishCall(toks, callee, pos, diags);
      r.result.Ok? && r.result.value.Call? && r.result.value.callee == callee &&
      |r.result.value.arguments| == n && r.pos == pos + 2 * n &&
      diags <= r.diags && |r.diags| == |diags| + Excess(0, n) &&
      (forall k :: |diags| <= k < |r.diags| ==> r.diags[k].message == TooManyArguments) &&
      ReportedAt(toks, pos, n, diags, r.diags, Excess(0, n))
  {
    ArgumentsArity(toks, [], pos, diags, n);
    ArgumentReportTokens(toks, [], pos, diags, n);
    var args := ParseArguments(toks, [], pos, diags);
    assert !Check(toks, pos, RIGHT_PAREN);
    var paren := Consume(toks, args.pos, args.diags, RIGHT_PAREN, ExpectParenAfterArguments);
    assert paren.result.Ok? && paren.pos == pos + 2 * n && paren.diags == args.diags;
  }

  /** From `pos` on, the tokens are `n` names separated by commas, and a `)`
      follows them. */
  predicate NameList(toks: seq<Token>, pos: nat, n: nat)
    decreases n
  {
    n >= 1 && pos + 2 * n <= |toks| && toks[pos].kind == IDENTIFIER &&
    if n == 1 then toks[pos + 1].kind == RIGHT_PAREN
    else toks[pos + 1].kind == COMMA && NameList(toks, pos + 2, n - 1)
  }

  /** A call with `MaxArgs` one-token arguments is reported nothing; one
      with a single argument more is reported exactly once, and still
      yields a complete `Call` node holding every argument. */
  lemma ArityLimit(toks: seq<Token>, callee: Expr, pos: nat, diags: seq<Diagnostic>, n: nat)
    requires ValidPos(toks, pos) && AtomList(toks, pos, n) && toks[pos + 2 * n - 1].kind == RIGHT_PAREN
    requires n == MaxArgs || n == MaxArgs + 1
    ensures var r := FinishCall(toks, callee, pos, diags);
      r.result.Ok? && |r.result.value.arguments| == n &&
      (n == MaxArgs ==> r.diags == diags) &&
      (n == MaxArgs + 1 ==> |r.diags| == |diags| + 1 && r.diags[|diags|] == Diagnostic(toks[pos + 2 * MaxArgs], TooManyArguments))
  {
    CallArity(toks, callee, pos, diags, n);
    var r := FinishCall(toks, callee, pos, diags);
    if n == MaxArgs + 1 {
      assert r.diags[|diags|].token == toks[pos + 2 * MaxArgs];
    }
    if n == MaxArgs {
      assert diags <= r.diags && |r.diags| == |diags|;
    }
  }

  /** The parameter loop of `function(kind)` over `n` names: it reads them
      all and reports each one beyond `MaxArgs` exactly once. */
  lemma {:induction false} ParametersArity(toks: seq<Token>, params: seq<Token>, pos: nat, diags: seq<Diagnostic>, n: nat)
    requires ValidPos(toks, pos) && NameList(toks, pos, n)
    ensures var r := ParseParameters(toks, params, pos, diags);
      r.result.Ok? && |r.result.value| == |params| + n && r.pos == pos + 2 * n - 1 && toks[r.pos].kind == RIGHT_PAREN &&
      diags <= r.diags && |r.diags| == |diags| + Excess(|params|, n) &&
      forall k :: |diags| <= k < |r.diags| ==> r.diags[k].message == TooManyParameters
    decreases n
  {
    var reported := ReportArity(toks, pos, diags, |params|, TooManyParameters);
    var param := Consume(toks, pos, reported, IDENTIFIER, ExpectParameterName);
    NextIsValid(toks, pos);
    if n > 1 {
      NextIsValid(toks, pos + 1);
      ParametersArity(toks, params + [param.result.value], pos + 2, param.diags, n - 1);
    }
  }

  /** A function header `name ( p1 , ... , pn ) {` reads all `n`
      parameters and reports exactly those beyond `MaxArgs`, each once. */
  lemma FunctionArity(toks: seq<Token>, pos: nat, diags: seq<Diagnostic>, n: nat)
    requires ValidPos(toks, pos) && toks[pos].kind == IDENTIFIER && toks[pos + 1].kind == LEFT_PAREN
    requires NameList(toks, pos + 2, n) && pos + 2 * n + 3 <= |toks| && toks[pos + 2 * n + 2].kind == LEFT_BRACE
    ensures var r := ParseFunctionHeader(toks, pos, diags);
      r.result.Ok? && r.result.value.0 == toks[pos] && |r.result.value.1| == n && r.pos == pos + 2 * n + 3 &&
      diags <= r.diags && |r.diags| == |diags| + Excess(0, n) &&
      forall k :: |diags| <= k < |r.diags| ==> r.diags[k].message == TooManyParameters
  {
    NextIsValid(toks, pos);
    NextIsValid(toks, pos + 1);
    ParametersArity(toks, [], pos + 2, diags, n);
    NextIsValid(toks, pos + 2 * n + 1);
  }

  /** `for (;;) body` is exactly `while (true) body`: no block and no
      expression statement wraps the body. */
  lemma ForWithoutClauses(toks: seq<Token>, pos: nat, diags: seq<Diagnostic>)
    requires ValidPos(toks, pos) && pos + 4 <= |toks|
    requires toks[pos].kind == LEFT_PAREN && toks[pos + 1].kind == SEMICOLON
    requires toks[pos + 2].kind == SEMICOLON && toks[pos + 3].kind == RIGHT_PAREN
    ensures ValidPos(toks, pos + 4)
    ensures var body := ParseStatement(toks, pos + 4, diags);
      ParseFor(toks, pos, diags) ==
        if body.result.Ok? then Parsed(Ok(While(Literal(Bool(true)), body.result.value)), body.pos, body.diags) else body
  {
    NextIsValid(toks, pos);
    NextIsValid(toks, pos + 1);
    NextIsValid(toks, pos + 2);
    NextIsValid(toks, pos + 3);
    assert ParseForInitializer(toks, pos + 1, diags) == Parsed(Ok(None), pos + 2, diags);
    assert ParseForClauses(toks, pos, diags) == Parsed(Ok(ForClauses(None, None, None)), pos + 4, diags);
  }

  /** One turn of the loop of `parse()`: one declaration, one entry. */
  lemma ParseLoopStep(toks: seq<Token>, stmts: seq<Option<Stmt>>, pos: nat, diags: seq<Diagnostic>,
                      entry: Option<Stmt>, next: nat, after: seq<Diagnostic>)
    requires ValidPos(toks, pos) && !IsAtEnd(toks, pos)
    requires ParseDeclaration(toks, pos, diags) == Parsed(Ok(entry), next, after)
    ensures ParseLoop(toks, stmts, pos, diags) == ParseLoop(toks, stmts + [entry], next, after)
  {
  }
}
