/** Worked inputs for the parser: short token lists, as the scanner would
    deliver them, and the trees, read indices and reports the grammar
    functions give for them. Each states one behaviour of Parser.java on a
    concrete program. */
module Scenarios {
  import opened Tokens
  import opened Ast
  import opened Diagnostics
  import opened Cursor
  import opened Precedence
  import opened ExprGrammar
  import opened StmtGrammar
  import opened ChainLemmas
  import opened Grouping
  import opened StmtRuns

  /** A token without a literal value, on line 1. */
  function T(kind: TokenType, lexeme: string): Token
  {
    Token(kind, lexeme, Nil, 1)
  }

  /** A number token whose value is written `digits`. */
  function N(digits: string): Token
  {
    Token(NUMBER, digits, Number(digits), 1)
  }

  function Lit(digits: string): Expr
  {
    Literal(Number(digits))
  }

  const Eof: Token := T(EOF, "")
  const Minus: Token := T(MINUS, "-")
  const Plus: Token := T(PLUS, "+")
  const Star: Token := T(STAR, "*")
  const Equal: Token := T(EQUAL, "=")
  const Semicolon: Token := T(SEMICOLON, ";")
  const LeftParen: Token := T(LEFT_PAREN, "(")
  const RightParen: Token := T(RIGHT_PAREN, ")")
  const PrintKw: Token := T(PRINT, "print")
  const A: Token := T(IDENTIFIER, "a")
  const B: Token := T(IDENTIFIER, "b")

  /** `1 - 2 - 3` groups to the left: Binary(Binary(1, -, 2), -, 3). */
  lemma SubtractionGroupsLeft()
    ensures ParseExpression([N("1"), Minus, N("2"), Minus, N("3"), Eof], 0, [])
         == Parsed(Ok(Binary(Binary(Lit("1"), Minus, Lit("2")), Minus, Lit("3"))), 5, [])
  {
    var toks := [N("1"), Minus, N("2"), Minus, N("3"), Eof];
    SameLevelGroupsLeft(AdditionLevel, toks, 0, []);
  }

  /** `1 + 2 * 3`: the multiplication is the right operand of the addition,
      Binary(1, +, Binary(2, *, 3)). */
  lemma MultiplicationBindsTighter()
    ensures ParseExpression([N("1"), Plus, N("2"), Star, N("3"), Eof], 0, [])
         == Parsed(Ok(Binary(Lit("1"), Plus, Binary(Lit("2"), Star, Lit("3")))), 5, [])
  {
    var toks := [N("1"), Plus, N("2"), Star, N("3"), Eof];
    TighterTakesRightOperand(AdditionLevel, MultiplicationLevel, toks, 0, []);
  }

  /** `a = b = 3` groups to the right: Assign(a, Assign(b, 3)). */
  lemma AssignmentGroupsRight()
    ensures ParseExpression([A, Equal, B, Equal, N("3"), Eof], 0, [])
         == Parsed(Ok(Assign(A, Assign(B, Lit("3")))), 5, [])
  {
    AssignmentsGroupRight([A, Equal, B, Equal, N("3"), Eof], 0, []);
  }

  /** `- - 3`: prefix operators stack, Unary(-, Unary(-, 3)). */
  lemma NegationsStack()
    ensures ParseExpression([Minus, Minus, N("3"), Eof], 0, [])
         == Parsed(Ok(Unary(Minus, Unary(Minus, Lit("3")))), 3, [])
  {
    var toks := [Minus, Minus, N("3"), Eof];
    var d: seq<Diagnostic> := [];
    AtomIsUnary(toks, 2, d);
    assert ParseUnary(toks, 1, d) == Parsed(Ok(Unary(Minus, Lit("3"))), 3, d);
    assert ParseUnary(toks, 0, d) == Parsed(Ok(Unary(Minus, Unary(Minus, Lit("3")))), 3, d);
    UnaryIsExpression(toks, 0, d);
  }

  /** `1 = 2`: a target that is not a variable is reported once, at the
      `=`, and the left-hand side comes back unchanged with no `Assign`
      node; the parse does not fail. */
  lemma InvalidTargetReportedOnce()
    ensures ParseExpression([N("1"), Equal, N("2"), Eof], 0, [])
         == Parsed(Ok(Lit("1")), 3, [Diagnostic(Equal, InvalidAssignmentTarget)])
  {
    var toks := [N("1"), Equal, N("2"), Eof];
    LiteralIsNoTarget(toks, 0, []);
    AtomIsExpression(toks, 2, []);
  }

  /** `( 1 + 2 ; print 3 ;` */
  const MissingParen: seq<Token> := [LeftParen, N("1"), Plus, N("2"), Semicolon, PrintKw, N("3"), Semicolon, Eof]

  /** The one report `MissingParen` gets: `)` expected, at the `;`. */
  const ParenReport: Diagnostic := Diagnostic(Semicolon, ExpectParenAfterExpression)

  /** `( 1 + 2 ; print 3 ;`: the missing `)` is reported once, at the `;`,
      with the message that asks for `)`; recovery resumes right after that
      `;`, so the next statement is parsed as usual. */
  lemma MissingParenRecovers()
    ensures Parse(MissingParen) == Parsed(Ok([None, Some(Print(Lit("3")))]), 8, [ParenReport])
  {
    UnclosedGroupProgram(AdditionLevel, MissingParen);
  }

  const VarKw: Token := T(VAR, "var")
  const X: Token := T(IDENTIFIER, "x")

  /** `print 1 ; print 2 print 3 ; print 4 var x ; print 5 ;` */
  const TwoMalformed: seq<Token> :=
    [PrintKw, N("1"), Semicolon, PrintKw, N("2"), PrintKw, N("3"), Semicolon,
     PrintKw, N("4"), VarKw, X, Semicolon, PrintKw, N("5"), Semicolon, Eof]

  /** The reports `TwoMalformed` gets: `;` expected, at the second `print`
      and at the `var`. */
  const PrintReport: Diagnostic := Diagnostic(PrintKw, ExpectSemicolonAfterExpression)
  const VarReport: Diagnostic := Diagnostic(VarKw, ExpectSemicolonAfterExpression)

  /** Two malformed declarations in a row give exactly two reports, one
      each, and the entries of `parse()` stay in source order: the two
      well-formed statements around them and a `None` for each failed one. */
  lemma TwoMalformedDeclarations()
    ensures Parse(TwoMalformed)
         == Parsed(Ok([Some(Print(Lit("1"))), None, None, Some(Print(Lit("5")))]), 16, [PrintReport, VarReport])
  {
    MalformedDeclarationsSkipped(TwoMalformed);
  }

  /** `for ( ; ; ) print 1 ;` */
  const EndlessFor: seq<Token> :=
    [T(FOR, "for"), LeftParen, Semicolon, Semicolon, RightParen, PrintKw, N("1"), Semicolon, Eof]

  /** A `for` with all three clauses left out is the single statement
      `While(Literal(true), Print(1))`: no `Block` around it and no
      increment statement in it. */
  lemma EndlessForDesugars()
    ensures Parse(EndlessFor) == Parsed(Ok([Some(While(Literal(Bool(true)), Print(Lit("1"))))]), 8, [])
  {
    EndlessPrint(EndlessFor, 0, []);
    LastDeclaration(EndlessFor, [], 0, [], Some(While(Literal(Bool(true)), Print(Lit("1")))), 8, []);
  }

  /** `if ( a ) if ( b ) print 1 ; else print 2 ;` */
  const DanglingElse: seq<Token> :=
    [T(IF, "if"), LeftParen, A, RightParen, T(IF, "if"), LeftParen, B, RightParen,
     PrintKw, N("1"), Semicolon, T(ELSE, "else"), PrintKw, N("2"), Semicolon, Eof]

  /** An `else` binds to the nearest `if`: the inner `if` of `DanglingElse`
      takes it, and the outer one gets no `else` branch. */
  lemma ElseBindsInnermost()
    ensures Parse(DanglingElse)
         == Parsed(Ok([Some(If(Variable(A), If(Variable(B), Print(Lit("1")), Some(Print(Lit("2")))), None))]), 15, [])
  {
    DanglingElseProgram(DanglingElse);
  }
}
