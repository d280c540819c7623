/** How the statement grammar and the recovery of Parser.java handle short
    statements over one-token operands: a `print` that reads to its `;`, one
    that misses its `;` and is skipped up to the next one, a group left
    unclosed, an `if` whose `else` goes to the nearest `if`, and a `for`
    with no clauses. Each fact holds for any token list, wherever the
    statement starts. */
module StmtRuns {
  import opened Tokens
  import opened Ast
  import opened Diagnostics
  import opened Cursor
  import opened Precedence
  import opened ExprGrammar
  import opened StmtGrammar
  import opened Recovery
  import opened ChainLemmas
  import opened Grouping

  /** A keyword that starts a statement is neither `;` nor the end of input,
      and it continues no expression. */
  lemma StartEndsExpression(kind: TokenType)
    requires kind in StatementStarts
    ensures kind != SEMICOLON && kind != EOF && kind != RIGHT_PAREN && Ends(kind)
  {
  }

  /** `print <atom> ;` at `pos` is one declaration that reports nothing. */
  lemma PrintAtom(toks: seq<Token>, pos: nat, diags: seq<Diagnostic>)
    requires ValidPos(toks, pos) && toks[pos].kind == PRINT
    requires IsAtom(toks[pos + 1].kind) && toks[pos + 2].kind == SEMICOLON
    ensures ValidPos(toks, pos + 3)
    ensures ParseStatement(toks, pos, diags) == Parsed(Ok(Print(AtomOf(toks[pos + 1]))), pos + 3, diags)
    ensures ParseDeclaration(toks, pos, diags) == Parsed(Ok(Some(Print(AtomOf(toks[pos + 1])))), pos + 3, diags)
  {
    NextIsValid(toks, pos);
    AtomIsExpression(toks, pos + 1, diags);
    NextIsValid(toks, pos + 2);
    assert ParsePrint(toks, pos + 1, diags) == Parsed(Ok(Print(AtomOf(toks[pos + 1]))), pos + 3, diags);
    assert AttemptDeclaration(toks, pos, diags) == ParseStatement(toks, pos, diags);
  }

  /** `print <atom>` whose `;` is missing: the token found instead is
      reported, and the attempt fails in front of it. */
  lemma PrintMissingSemicolon(toks: seq<Token>, pos: nat, diags: seq<Diagnostic>)
    requires ValidPos(toks, pos) && toks[pos].kind == PRINT && IsAtom(toks[pos + 1].kind)
    requires Ends(toks[pos + 2].kind) && toks[pos + 2].kind != SEMICOLON
    ensures AttemptDeclaration(toks, pos, diags)
         == Parsed(ParseError, pos + 2, diags + [Diagnostic(toks[pos + 2], ExpectSemicolonAfterExpression)])
  {
    NextIsValid(toks, pos);
    AtomIsExpression(toks, pos + 1, diags);
  }

  /** Recovery from a token that is neither `;` nor the end of input, in
      front of a one-token operand and a `;`, discards all three and resumes
      right after the `;`. */
  lemma SkipsThroughSemicolon(toks: seq<Token>, pos: nat)
    requires ValidPos(toks, pos) && toks[pos].kind != EOF && toks[pos].kind != SEMICOLON
    requires IsAtom(toks[pos + 1].kind) && toks[pos + 2].kind == SEMICOLON
    ensures ValidPos(toks, pos + 3) && Synchronize(toks, pos) == pos + 3
  {
    NextIsValid(toks, pos);
    NextIsValid(toks, pos + 1);
    NextIsValid(toks, pos + 2);
    assert SyncLoop(toks, pos + 2) == pos + 3;
  }

  /** `print <atom>` followed by a statement keyword, a one-token operand
      and `;`: one report, at the keyword, and recovery discards everything
      up to and including that `;`, so the keyword's own statement is lost
      with the malformed one. */
  lemma MalformedPrint(toks: seq<Token>, pos: nat, diags: seq<Diagnostic>)
    requires ValidPos(toks, pos) && toks[pos].kind == PRINT && IsAtom(toks[pos + 1].kind)
    requires toks[pos + 2].kind in StatementStarts
    requires IsAtom(toks[pos + 3].kind) && toks[pos + 4].kind == SEMICOLON
    ensures ValidPos(toks, pos + 5)
    ensures ParseDeclaration(toks, pos, diags)
         == Parsed(Ok(None), pos + 5, diags + [Diagnostic(toks[pos + 2], ExpectSemicolonAfterExpression)])
  {
    StartEndsExpression(toks[pos + 2].kind);
    PrintMissingSemicolon(toks, pos, diags);
    SkipsThroughSemicolon(toks, pos + 2);
  }

  /** `a op b` with an operator of the level `lv`, followed by a token that
      continues no expression, is a whole expression. */
  lemma PairIsExpression(lv: Level, toks: seq<Token>, pos: nat, diags: seq<Diagnostic>)
    requires ValidPos(toks, pos) && IsAtom(toks[pos].kind)
    requires toks[pos + 1].kind in Operators(lv) && IsAtom(toks[pos + 2].kind)
    requires Ends(toks[pos + 3].kind)
    ensures ValidPos(toks, pos + 3)
    ensures ParseExpression(toks, pos, diags)
         == Parsed(Ok(Node(lv, AtomOf(toks[pos]), toks[pos + 1], AtomOf(toks[pos + 2]))), pos + 3, diags)
  {
    PairRun(lv, toks, pos, diags);
    ExpressionIsLevel(lv, toks, pos, diags);
  }

  /** `( a op b` followed by a token other than `)` that continues no
      expression: the group fails there, with one report asking for `)`. */
  lemma UnclosedGroup(lv: Level, toks: seq<Token>, pos: nat, diags: seq<Diagnostic>)
    requires ValidPos(toks, pos) && toks[pos].kind == LEFT_PAREN && IsAtom(toks[pos + 1].kind)
    requires toks[pos + 2].kind in Operators(lv) && IsAtom(toks[pos + 3].kind)
    requires Ends(toks[pos + 4].kind) && toks[pos + 4].kind != RIGHT_PAREN
    ensures ParseUnary(toks, pos, diags)
         == Parsed(ParseError, pos + 4, diags + [Diagnostic(toks[pos + 4], ExpectParenAfterExpression)])
  {
    NextIsValid(toks, pos);
    PairIsExpression(lv, toks, pos + 1, diags);
    assert ParsePrimary(toks, pos, diags)
        == Parsed(ParseError, pos + 4, diags + [Diagnostic(toks[pos + 4], ExpectParenAfterExpression)]);
  }

  /** An expression statement `( a op b ;` is one declaration that fails
      at the `;` with one report, and recovery resumes right after that
      `;`. */
  lemma UnclosedGroupStatement(lv: Level, toks: seq<Token>, pos: nat, diags: seq<Diagnostic>)
    requires ValidPos(toks, pos) && toks[pos].kind == LEFT_PAREN && IsAtom(toks[pos + 1].kind)
    requires toks[pos + 2].kind in Operators(lv) && IsAtom(toks[pos + 3].kind)
    requires toks[pos + 4].kind == SEMICOLON
    ensures ValidPos(toks, pos + 5)
    ensures ParseDeclaration(toks, pos, diags)
         == Parsed(Ok(None), pos + 5, diags + [Diagnostic(toks[pos + 4], ExpectParenAfterExpression)])
  {
    UnclosedGroup(lv, toks, pos, diags);
    UnaryIsExpression(toks, pos, diags);
    assert AttemptDeclaration(toks, pos, diags)
        == Parsed(ParseError, pos + 4, diags + [Diagnostic(toks[pos + 4], ExpectParenAfterExpression)]);
    NextIsValid(toks, pos + 4);
    assert SyncLoop(toks, pos + 5) == pos + 5;
  }

  /** The program `( a op b ; print c ;`: the missing `)` is reported once,
      at the `;`, with the message that asks for `)`; recovery resumes right
      after that `;`, so the next statement is parsed as usual. */
  lemma UnclosedGroupProgram(lv: Level, toks: seq<Token>)
    requires |toks| == 9 && toks[8].kind == EOF
    requires toks[0].kind == LEFT_PAREN && IsAtom(toks[1].kind) && toks[2].kind in Operators(lv)
    requires IsAtom(toks[3].kind) && toks[4].kind == SEMICOLON
    requires toks[5].kind == PRINT && IsAtom(toks[6].kind) && toks[7].kind == SEMICOLON
    ensures WellFormed(toks)
    ensures Parse(toks) == Parsed(Ok([None, Some(Print(AtomOf(toks[6])))]), 8, [Diagnostic(toks[4], ExpectParenAfterExpression)])
  {
    UnclosedGroupStatement(lv, toks, 0, []);
    ParseLoopStep(toks, [], 0, [], None, 5, [] + [Diagnostic(toks[4], ExpectParenAfterExpression)]);
    assert [] + [Diagnostic(toks[4], ExpectParenAfterExpression)] == [Diagnostic(toks[4], ExpectParenAfterExpression)];
    assert (var none: seq<Option<Stmt>> := []; none + [None]) == [None];
    PrintAtom(toks, 5, [Diagnostic(toks[4], ExpectParenAfterExpression)]);
    LastDeclaration(toks, [None], 5, [Diagnostic(toks[4], ExpectParenAfterExpression)],
                    Some(Print(AtomOf(toks[6]))), 8, [Diagnostic(toks[4], ExpectParenAfterExpression)]);
    assert [None] + [Some(Print(AtomOf(toks[6])))] == [None, Some(Print(AtomOf(toks[6])))];
  }

  /** `( <atom> )`: a condition of one token. */
  lemma AtomCondition(toks: seq<Token>, pos: nat, diags: seq<Diagnostic>, openMessage: Message, closeMessage: Message)
    requires ValidPos(toks, pos) && toks[pos].kind == LEFT_PAREN
    requires IsAtom(toks[pos + 1].kind) && toks[pos + 2].kind == RIGHT_PAREN
    ensures ValidPos(toks, pos + 3)
    ensures ParseCondition(toks, pos, diags, openMessage, closeMessage) == Parsed(Ok(AtomOf(toks[pos + 1])), pos + 3, diags)
  {
    NextIsValid(toks, pos);
    AtomIsExpression(toks, pos + 1, diags);
    NextIsValid(toks, pos + 2);
  }

  /** `if ( a ) print b ; else print c ;`: the `else` and its branch belong
      to this `if`. */
  lemma IfElsePrint(toks: seq<Token>, pos: nat, diags: seq<Diagnostic>)
    requires ValidPos(toks, pos) && toks[pos].kind == IF && toks[pos + 1].kind == LEFT_PAREN
    requires IsAtom(toks[pos + 2].kind) && toks[pos + 3].kind == RIGHT_PAREN
    requires toks[pos + 4].kind == PRINT && IsAtom(toks[pos + 5].kind) && toks[pos + 6].kind == SEMICOLON
    requires toks[pos + 7].kind == ELSE && toks[pos + 8].kind == PRINT
    requires IsAtom(toks[pos + 9].kind) && toks[pos + 10].kind == SEMICOLON
    ensures ValidPos(toks, pos + 11)
    ensures ParseStatement(toks, pos, diags)
         == Parsed(Ok(If(AtomOf(toks[pos + 2]), Print(AtomOf(toks[pos + 5])), Some(Print(AtomOf(toks[pos + 9]))))), pos + 11, diags)
  {
    NextIsValid(toks, pos);
    AtomCondition(toks, pos + 1, diags, ExpectParenAfterIf, ExpectParenAfterIfCondition);
    PrintAtom(toks, pos + 4, diags);
    NextIsValid(toks, pos + 7);
    PrintAtom(toks, pos + 8, diags);
    assert ParseElse(toks, pos + 7, diags) == Parsed(Ok(Some(Print(AtomOf(toks[pos + 9])))), pos + 11, diags);
  }

  /** `if ( a )` followed by a statement that reads without a report and
      ends in front of anything but `else`: an `if` with no `else` branch. */
  lemma IfWithoutElse(toks: seq<Token>, pos: nat, diags: seq<Diagnostic>, thenBranch: Stmt, end: nat)
    requires ValidPos(toks, pos) && toks[pos].kind == IF && toks[pos + 1].kind == LEFT_PAREN
    requires IsAtom(toks[pos + 2].kind) && toks[pos + 3].kind == RIGHT_PAREN
    requires ValidPos(toks, pos + 4) && ParseStatement(toks, pos + 4, diags) == Parsed(Ok(thenBranch), end, diags)
    requires toks[end].kind != ELSE
    ensures ParseStatement(toks, pos, diags) == Parsed(Ok(If(AtomOf(toks[pos + 2]), thenBranch, None)), end, diags)
  {
    NextIsValid(toks, pos);
    AtomCondition(toks, pos + 1, diags, ExpectParenAfterIf, ExpectParenAfterIfCondition);
    assert ParseElse(toks, end, diags) == Parsed(Ok(None), end, diags);
    assert ParseIf(toks, pos + 1, diags) == Parsed(Ok(If(AtomOf(toks[pos + 2]), thenBranch, None)), end, diags);
  }

  /** `if ( a ) if ( b ) print c ; else print d ;` followed by anything but
      `else`: the `else` goes to the inner `if`, and the outer one has none. */
  lemma ElseGoesInner(toks: seq<Token>, pos: nat, diags: seq<Diagnostic>)
    requires ValidPos(toks, pos) && toks[pos].kind == IF && toks[pos + 1].kind == LEFT_PAREN
    requires IsAtom(toks[pos + 2].kind) && toks[pos + 3].kind == RIGHT_PAREN
    requires toks[pos + 4].kind == IF && toks[pos + 5].kind == LEFT_PAREN
    requires IsAtom(toks[pos + 6].kind) && toks[pos + 7].kind == RIGHT_PAREN
    requires toks[pos + 8].kind == PRINT && IsAtom(toks[pos + 9].kind) && toks[pos + 10].kind == SEMICOLON
    requires toks[pos + 11].kind == ELSE && toks[pos + 12].kind == PRINT
    requires IsAtom(toks[pos + 13].kind) && toks[pos + 14].kind == SEMICOLON
    requires toks[pos + 15].kind != ELSE
    ensures ValidPos(toks, pos + 15)
    ensures ParseStatement(toks, pos, diags)
         == Parsed(Ok(If(AtomOf(toks[pos + 2]),
                         If(AtomOf(toks[pos + 6]), Print(AtomOf(toks[pos + 9])), Some(Print(AtomOf(toks[pos + 13])))),
                         None)), pos + 15, diags)
  {
    IfElsePrint(toks, pos + 4, diags);
    IfWithoutElse(toks, pos, diags,
                  If(AtomOf(toks[pos + 6]), Print(AtomOf(toks[pos + 9])), Some(Print(AtomOf(toks[pos + 13])))), pos + 15);
  }

  /** The program `if ( a ) if ( b ) print c ; else print d ;`: one
      declaration, the outer `if`, whose then branch is the inner `if` with
      the `else`. */
  lemma DanglingElseProgram(toks: seq<Token>)
    requires |toks| == 16 && toks[15].kind == EOF
    requires toks[0].kind == IF && toks[1].kind == LEFT_PAREN && IsAtom(toks[2].kind) && toks[3].kind == RIGHT_PAREN
    requires toks[4].kind == IF && toks[5].kind == LEFT_PAREN && IsAtom(toks[6].kind) && toks[7].kind == RIGHT_PAREN
    requires toks[8].kind == PRINT && IsAtom(toks[9].kind) && toks[10].kind == SEMICOLON
    requires toks[11].kind == ELSE && toks[12].kind == PRINT && IsAtom(toks[13].kind) && toks[14].kind == SEMICOLON
    ensures WellFormed(toks)
    ensures Parse(toks)
         == Parsed(Ok([Some(If(AtomOf(toks[2]), If(AtomOf(toks[6]), Print(AtomOf(toks[9])), Some(Print(AtomOf(toks[13])))), None))]),
                   15, [])
  {
    ElseGoesInner(toks, 0, []);
    assert ParseDeclaration(toks, 0, [])
        == Parsed(Ok(Some(If(AtomOf(toks[2]), If(AtomOf(toks[6]), Print(AtomOf(toks[9])), Some(Print(AtomOf(toks[13])))), None))), 15, []);
    LastDeclaration(toks, [], 0, [],
                    Some(If(AtomOf(toks[2]), If(AtomOf(toks[6]), Print(AtomOf(toks[9])), Some(Print(AtomOf(toks[13])))), None)), 15, []);
  }

  /** `for ( ; ; ) print a ;` is one declaration: `while (true) print a;`,
      with no block around it and no increment in it. */
  lemma EndlessPrint(toks: seq<Token>, pos: nat, diags: seq<Diagnostic>)
    requires ValidPos(toks, pos) && toks[pos].kind == FOR && toks[pos + 1].kind == LEFT_PAREN
    requires toks[pos + 2].kind == SEMICOLON && toks[pos + 3].kind == SEMICOLON && toks[pos + 4].kind == RIGHT_PAREN
    requires toks[pos + 5].kind == PRINT && IsAtom(toks[pos + 6].kind) && toks[pos + 7].kind == SEMICOLON
    ensures ValidPos(toks, pos + 8)
    ensures ParseDeclaration(toks, pos, diags)
         == Parsed(Ok(Some(While(Literal(Bool(true)), Print(AtomOf(toks[pos + 6]))))), pos + 8, diags)
  {
    NextIsValid(toks, pos);
    ForWithoutClauses(toks, pos + 1, diags);
    PrintAtom(toks, pos + 5, diags);
    assert ParseStatement(toks, pos, diags) == Parsed(Ok(While(Literal(Bool(true)), Print(AtomOf(toks[pos + 6])))), pos + 8, diags);
  }

  /** `print <atom> ;` is one entry of the loop of `parse()`, with no
      report. */
  lemma PrintEntry(toks: seq<Token>, stmts: seq<Option<Stmt>>, pos: nat, diags: seq<Diagnostic>)
    requires ValidPos(toks, pos) && toks[pos].kind == PRINT
    requires IsAtom(toks[pos + 1].kind) && toks[pos + 2].kind == SEMICOLON
    ensures ValidPos(toks, pos + 3)
    ensures ParseLoop(toks, stmts, pos, diags) == ParseLoop(toks, stmts + [Some(Print(AtomOf(toks[pos + 1])))], pos + 3, diags)
  {
    PrintAtom(toks, pos, diags);
    ParseLoopStep(toks, stmts, pos, diags, Some(Print(AtomOf(toks[pos + 1]))), pos + 3, diags);
  }

  /** A malformed `print` as `MalformedPrint` reads it is one `None` entry
      of the loop of `parse()`, with one report. */
  lemma MalformedEntry(toks: seq<Token>, stmts: seq<Option<Stmt>>, pos: nat, diags: seq<Diagnostic>)
    requires ValidPos(toks, pos) && toks[pos].kind == PRINT && IsAtom(toks[pos + 1].kind)
    requires toks[pos + 2].kind in StatementStarts
    requires IsAtom(toks[pos + 3].kind) && toks[pos + 4].kind == SEMICOLON
    ensures ValidPos(toks, pos + 5)
    ensures ParseLoop(toks, stmts, pos, diags)
         == ParseLoop(toks, stmts + [None], pos + 5, diags + [Diagnostic(toks[pos + 2], ExpectSemicolonAfterExpression)])
  {
    MalformedPrint(toks, pos, diags);
    ParseLoopStep(toks, stmts, pos, diags, None, pos + 5, diags + [Diagnostic(toks[pos + 2], ExpectSemicolonAfterExpression)]);
  }

  /** From `pos` on, the tokens read `print a ; print b K c ; print d L e ;
      print f ;` and then `EOF`, with one-token operands and statement
      keywords `K` and `L`. */
  predicate TwoMalformedShape(toks: seq<Token>, pos: nat)
  {
    pos + 16 < |toks| &&
    toks[pos].kind == PRINT && IsAtom(toks[pos + 1].kind) && toks[pos + 2].kind == SEMICOLON &&
    toks[pos + 3].kind == PRINT && IsAtom(toks[pos + 4].kind) && toks[pos + 5].kind in StatementStarts &&
    IsAtom(toks[pos + 6].kind) && toks[pos + 7].kind == SEMICOLON &&
    toks[pos + 8].kind == PRINT && IsAtom(toks[pos + 9].kind) && toks[pos + 10].kind in StatementStarts &&
    IsAtom(toks[pos + 11].kind) && toks[pos + 12].kind == SEMICOLON &&
    toks[pos + 13].kind == PRINT && IsAtom(toks[pos + 14].kind) && toks[pos + 15].kind == SEMICOLON &&
    toks[pos + 16].kind == EOF
  }

  /** The program of `TwoMalformedShape` and nothing else: two malformed
      declarations in a row give exactly two reports, one each, and the
      entries of `parse()` stay in source order, the two well-formed
      statements around them and a `None` for each failed one. The
      keywords' own statements are lost with the malformed ones. */
  lemma MalformedDeclarationsSkipped(toks: seq<Token>)
    requires |toks| == 17 && TwoMalformedShape(toks, 0)
    ensures WellFormed(toks)
    ensures Parse(toks)
         == Parsed(Ok([Some(Print(AtomOf(toks[1]))), None, None, Some(Print(AtomOf(toks[14])))]), 16,
                   [Diagnostic(toks[5], ExpectSemicolonAfterExpression), Diagnostic(toks[10], ExpectSemicolonAfterExpression)])
  {
    ParseIsLoop(toks);
    ShapedRun(toks, [], 0, []);
    assert [] + [Some(Print(AtomOf(toks[1]))), None, None, Some(Print(AtomOf(toks[14])))]
        == [Some(Print(AtomOf(toks[1]))), None, None, Some(Print(AtomOf(toks[14])))];
    assert [] + [Diagnostic(toks[5], ExpectSemicolonAfterExpression), Diagnostic(toks[10], ExpectSemicolonAfterExpression)]
        == [Diagnostic(toks[5], ExpectSemicolonAfterExpression), Diagnostic(toks[10], ExpectSemicolonAfterExpression)];
  }

  /** `MalformedRun` where the tokens from `pos` on have `TwoMalformedShape`. */
  lemma ShapedRun(toks: seq<Token>, stmts: seq<Option<Stmt>>, pos: nat, diags: seq<Diagnostic>)
    requires ValidPos(toks, pos) && TwoMalformedShape(toks, pos)
    ensures ParseLoop(toks, stmts, pos, diags)
         == Parsed(Ok(stmts + [Some(Print(AtomOf(toks[pos + 1]))), None, None, Some(Print(AtomOf(toks[pos + 14])))]), pos + 16,
                   diags + [Diagnostic(toks[pos + 5], ExpectSemicolonAfterExpression), Diagnostic(toks[pos + 10], ExpectSemicolonAfterExpression)])
  {
    MalformedRun(toks, stmts, pos, diags);
  }

  /** The run of `TwoMalformedShape` at any position of the loop of
      `parse()`, with any entries and reports before it. */
  lemma MalformedRun(toks: seq<Token>, stmts: seq<Option<Stmt>>, pos: nat, diags: seq<Diagnostic>)
    requires ValidPos(toks, pos) && toks[pos].kind == PRINT && IsAtom(toks[pos + 1].kind) && toks[pos + 2].kind == SEMICOLON
    requires toks[pos + 3].kind == PRINT && IsAtom(toks[pos + 4].kind) && toks[pos + 5].kind in StatementStarts
    requires IsAtom(toks[pos + 6].kind) && toks[pos + 7].kind == SEMICOLON
    requires toks[pos + 8].kind == PRINT && IsAtom(toks[pos + 9].kind) && toks[pos + 10].kind in StatementStarts
    requires IsAtom(toks[pos + 11].kind) && toks[pos + 12].kind == SEMICOLON
    requires toks[pos + 13].kind == PRINT && IsAtom(toks[pos + 14].kind) && toks[pos + 15].kind == SEMICOLON
    requires toks[pos + 16].kind == EOF
    ensures ParseLoop(toks, stmts, pos, diags)
         == Parsed(Ok(stmts + [Some(Print(AtomOf(toks[pos + 1]))), None, None, Some(Print(AtomOf(toks[pos + 14])))]), pos + 16,
                   diags + [Diagnostic(toks[pos + 5], ExpectSemicolonAfterExpression), Diagnostic(toks[pos + 10], ExpectSemicolonAfterExpression)])
  {
    PrintThenMalformed(toks, stmts, pos, diags);
    MalformedThenLast(toks, stmts + [Some(Print(AtomOf(toks[pos + 1]))), None], pos + 8,
                      diags + [Diagnostic(toks[pos + 5], ExpectSemicolonAfterExpression)]);
    assert stmts + [Some(Print(AtomOf(toks[pos + 1]))), None] + [None] + [Some(Print(AtomOf(toks[pos + 14])))]
        == stmts + [Some(Print(AtomOf(toks[pos + 1]))), None, None, Some(Print(AtomOf(toks[pos + 14])))];
    assert diags + [Diagnostic(toks[pos + 5], ExpectSemicolonAfterExpression)] + [Diagnostic(toks[pos + 10], ExpectSemicolonAfterExpression)]
        == diags + [Diagnostic(toks[pos + 5], ExpectSemicolonAfterExpression), Diagnostic(toks[pos + 10], ExpectSemicolonAfterExpression)];
  }

  /** `print <atom> ;` followed by a malformed `print` as `MalformedPrint`
      reads it: one statement, then one failed entry with its report. */
  lemma PrintThenMalformed(toks: seq<Token>, stmts: seq<Option<Stmt>>, pos: nat, diags: seq<Diagnostic>)
    requires ValidPos(toks, pos) && toks[pos].kind == PRINT && IsAtom(toks[pos + 1].kind) && toks[pos + 2].kind == SEMICOLON
    requires toks[pos + 3].kind == PRINT && IsAtom(toks[pos + 4].kind) && toks[pos + 5].kind in StatementStarts
    requires IsAtom(toks[pos + 6].kind) && toks[pos + 7].kind == SEMICOLON
    ensures ValidPos(toks, pos + 8)
    ensures ParseLoop(toks, stmts, pos, diags)
         == ParseLoop(toks, stmts + [Some(Print(AtomOf(toks[pos + 1]))), None], pos + 8,
                      diags + [Diagnostic(toks[pos + 5], ExpectSemicolonAfterExpression)])
  {
    PrintEntry(toks, stmts, pos, diags);
    MalformedEntry(toks, stmts + [Some(Print(AtomOf(toks[pos + 1])))], pos + 3, diags);
    assert stmts + [Some(Print(AtomOf(toks[pos + 1])))] + [None] == stmts + [Some(Print(AtomOf(toks[pos + 1]))), None];
  }

  /** A malformed `print` as `MalformedPrint` reads it, then
      `print <atom> ;` and the end of input: the last two entries of the
      loop of `parse()`, with one more report. */
  lemma MalformedThenLast(toks: seq<Token>, stmts: seq<Option<Stmt>>, pos: nat, diags: seq<Diagnostic>)
    requires ValidPos(toks, pos) && toks[pos].kind == PRINT && IsAtom(toks[pos + 1].kind)
    requires toks[pos + 2].kind in StatementStarts
    requires IsAtom(toks[pos + 3].kind) && toks[pos + 4].kind == SEMICOLON
    requires toks[pos + 5].kind == PRINT && IsAtom(toks[pos + 6].kind) && toks[pos + 7].kind == SEMICOLON
    requires toks[pos + 8].kind == EOF
    ensures ParseLoop(toks, stmts, pos, diags)
         == Parsed(Ok(stmts + [None] + [Some(Print(AtomOf(toks[pos + 6])))]), pos + 8,
                   diags + [Diagnostic(toks[pos + 2], ExpectSemicolonAfterExpression)])
  {
    MalformedEntry(toks, stmts, pos, diags);
    PrintAtom(toks, pos + 5, diags + [Diagnostic(toks[pos + 2], ExpectSemicolonAfterExpression)]);
    LastDeclaration(toks, stmts + [None], pos + 5, diags + [Diagnostic(toks[pos + 2], ExpectSemicolonAfterExpression)],
                    Some(Print(AtomOf(toks[pos + 6]))), pos + 8, diags + [Diagnostic(toks[pos + 2], ExpectSemicolonAfterExpression)]);
  }

  /** `parse()` is its loop, started at the first token with no entries
      and no reports. */
  lemma ParseIsLoop(toks: seq<Token>)
    requires WellFormed(toks)
    ensures Parse(toks) == ParseLoop(toks, [], 0, [])
  {
  }

  /** A declaration that ends at the end of input is the last entry of the
      loop of `parse()`. */
  lemma LastDeclaration(toks: seq<Token>, stmts: seq<Option<Stmt>>, pos: nat, diags: seq<Diagnostic>,
                        entry: Option<Stmt>, next: nat, after: seq<Diagnostic>)
    requires ValidPos(toks, pos) && !IsAtEnd(toks, pos)
    requires ParseDeclaration(toks, pos, diags) == Parsed(Ok(entry), next, after)
    requires toks[next].kind == EOF
    ensures ParseLoop(toks, stmts, pos, diags) == Parsed(Ok(stmts + [entry]), next, after)
  {
    ParseLoopStep(toks, stmts, pos, diags, entry, next, after);
  }
}
