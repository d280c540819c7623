/** How the expression chain of Parser.java groups short operator runs over
    one-token operands: operators of one level group to the left, a tighter
    operator takes its operands before a looser one, and `=` groups to the
    right. Each fact holds for any token list, wherever the run starts. */
module Grouping {
  import opened Tokens
  import opened Ast
  import opened Diagnostics
  import opened Cursor
  import opened Precedence
  import opened ExprGrammar
  import opened ChainLemmas

  /** An operator of the level `lv` belongs to no other level and is
      neither `(`, `=` nor the end of input. */
  lemma IsOperator(kind: TokenType, lv: Level)
    requires kind in Operators(lv)
    ensures OperatorLevel(kind) == Some(lv)
    ensures kind != LEFT_PAREN && kind != EQUAL && kind != EOF
  {
  }

  /** A one-token operand followed by neither `(` nor an operator tighter
      than `lv` is the whole operand of the level `lv`. */
  lemma AtomIsOperand(lv: Level, toks: seq<Token>, pos: nat, diags: seq<Diagnostic>)
    requires ValidPos(toks, pos) && IsAtom(toks[pos].kind)
    requires toks[pos + 1].kind != LEFT_PAREN && StopsAt(toks[pos + 1].kind, LevelPrec(lv) + 1)
    ensures ValidPos(toks, pos + 1)
    ensures ParseOperand(lv, toks, pos, diags) == Parsed(Ok(AtomOf(toks[pos])), pos + 1, diags)
  {
    AtomIsUnary(toks, pos, diags);
    if lv != MultiplicationLevel {
      UnaryIsBinary(Next(lv), toks, pos, diags);
    }
  }

  /** A binary level that starts with such an operand goes on with its loop
      right after it. */
  lemma LevelStartsWithAtom(lv: Level, toks: seq<Token>, pos: nat, diags: seq<Diagnostic>)
    requires ValidPos(toks, pos) && IsAtom(toks[pos].kind)
    requires toks[pos + 1].kind != LEFT_PAREN && StopsAt(toks[pos + 1].kind, LevelPrec(lv) + 1)
    ensures ValidPos(toks, pos + 1)
    ensures ParseBinary(lv, toks, pos, diags) == BinaryLoop(lv, toks, AtomOf(toks[pos]), pos + 1, diags)
  {
    AtomIsOperand(lv, toks, pos, diags);
  }

  /** An operator of the level `lv` followed by an operand that parses
      without a report folds that operand into the left operand. */
  lemma FoldOperand(lv: Level, toks: seq<Token>, left: Expr, pos: nat, diags: seq<Diagnostic>, right: Expr, next: nat)
    requires ValidPos(toks, pos) && toks[pos].kind in Operators(lv)
    requires ValidPos(toks, pos + 1) && ParseOperand(lv, toks, pos + 1, diags) == Parsed(Ok(right), next, diags)
    ensures ValidPos(toks, next)
    ensures BinaryLoop(lv, toks, left, pos, diags) == BinaryLoop(lv, toks, Node(lv, left, toks[pos], right), next, diags)
  {
    IsOperator(toks[pos].kind, lv);
    assert Matches(toks, pos, Operators(lv));
  }

  /** The loop of any level ends, unchanged, in front of a token that
      continues no expression. */
  lemma LoopStops(lv: Level, toks: seq<Token>, left: Expr, pos: nat, diags: seq<Diagnostic>)
    requires ValidPos(toks, pos) && Ends(toks[pos].kind)
    ensures BinaryLoop(lv, toks, left, pos, diags) == Parsed(Ok(left), pos, diags)
  {
    assert !Matches(toks, pos, Operators(lv));
  }

  /** An operator of the level `lv` followed by such an operand folds both
      into the left operand, two tokens further on. */
  lemma FoldAtom(lv: Level, toks: seq<Token>, left: Expr, pos: nat, diags: seq<Diagnostic>)
    requires ValidPos(toks, pos) && toks[pos].kind in Operators(lv)
    requires IsAtom(toks[pos + 1].kind)
    requires toks[pos + 2].kind != LEFT_PAREN && StopsAt(toks[pos + 2].kind, LevelPrec(lv) + 1)
    ensures ValidPos(toks, pos + 2)
    ensures BinaryLoop(lv, toks, left, pos, diags)
         == BinaryLoop(lv, toks, Node(lv, left, toks[pos], AtomOf(toks[pos + 1])), pos + 2, diags)
  {
    assert Matches(toks, pos, Operators(lv));
    NextIsValid(toks, pos);
    AtomIsOperand(lv, toks, pos + 1, diags);
    BinaryLoopStep(lv, toks, left, pos, diags);
  }

  /** An operator of the level `lv` followed by a one-token operand and a
      token that continues no expression ends the loop of `lv` with one
      more node. */
  lemma LastFold(lv: Level, toks: seq<Token>, left: Expr, pos: nat, diags: seq<Diagnostic>)
    requires ValidPos(toks, pos) && toks[pos].kind in Operators(lv)
    requires IsAtom(toks[pos + 1].kind) && Ends(toks[pos + 2].kind)
    ensures ValidPos(toks, pos + 2)
    ensures BinaryLoop(lv, toks, left, pos, diags)
         == Parsed(Ok(Node(lv, left, toks[pos], AtomOf(toks[pos + 1]))), pos + 2, diags)
  {
    FoldAtom(lv, toks, left, pos, diags);
    LoopStops(lv, toks, Node(lv, left, toks[pos], AtomOf(toks[pos + 1])), pos + 2, diags);
  }

  /** `a op b op c` with two operators of one level groups to the left:
      `(a op b) op c`, with no report. */
  lemma SameLevelGroupsLeft(lv: Level, toks: seq<Token>, pos: nat, diags: seq<Diagnostic>)
    requires ValidPos(toks, pos) && IsAtom(toks[pos].kind)
    requires toks[pos + 1].kind in Operators(lv) && IsAtom(toks[pos + 2].kind)
    requires toks[pos + 3].kind in Operators(lv) && IsAtom(toks[pos + 4].kind)
    requires Ends(toks[pos + 5].kind)
    ensures var inner := Node(lv, AtomOf(toks[pos]), toks[pos + 1], AtomOf(toks[pos + 2]));
      ParseExpression(toks, pos, diags)
      == Parsed(Ok(Node(lv, inner, toks[pos + 3], AtomOf(toks[pos + 4]))), pos + 5, diags)
  {
    SameLevelRun(lv, toks, pos, diags);
    ExpressionIsLevel(lv, toks, pos, diags);
  }

  /** The binary level `lv` over `a op b op c`. */
  lemma SameLevelRun(lv: Level, toks: seq<Token>, pos: nat, diags: seq<Diagnostic>)
    requires ValidPos(toks, pos) && IsAtom(toks[pos].kind)
    requires toks[pos + 1].kind in Operators(lv) && IsAtom(toks[pos + 2].kind)
    requires toks[pos + 3].kind in Operators(lv) && IsAtom(toks[pos + 4].kind)
    requires Ends(toks[pos + 5].kind)
    ensures var inner := Node(lv, AtomOf(toks[pos]), toks[pos + 1], AtomOf(toks[pos + 2]));
      ParseBinary(lv, toks, pos, diags)
      == Parsed(Ok(Node(lv, inner, toks[pos + 3], AtomOf(toks[pos + 4]))), pos + 5, diags)
  {
    IsOperator(toks[pos + 1].kind, lv);
    IsOperator(toks[pos + 3].kind, lv);
    LevelStartsWithAtom(lv, toks, pos, diags);
    FoldAtom(lv, toks, AtomOf(toks[pos]), pos + 1, diags);
    LastFold(lv, toks, Node(lv, AtomOf(toks[pos]), toks[pos + 1], AtomOf(toks[pos + 2])), pos + 3, diags);
  }

  /** The binary level `hi` over `b hi c`. */
  lemma PairRun(hi: Level, toks: seq<Token>, pos: nat, diags: seq<Diagnostic>)
    requires ValidPos(toks, pos) && IsAtom(toks[pos].kind)
    requires toks[pos + 1].kind in Operators(hi) && IsAtom(toks[pos + 2].kind)
    requires Ends(toks[pos + 3].kind)
    ensures ValidPos(toks, pos + 3)
    ensures ParseBinary(hi, toks, pos, diags)
         == Parsed(Ok(Node(hi, AtomOf(toks[pos]), toks[pos + 1], AtomOf(toks[pos + 2]))), pos + 3, diags)
  {
    IsOperator(toks[pos + 1].kind, hi);
    LevelStartsWithAtom(hi, toks, pos, diags);
    LastFold(hi, toks, AtomOf(toks[pos]), pos + 1, diags);
  }

  /** `b hi c` with an operator of the level `hi` is a whole operand of any
      looser level `lo`. */
  lemma TightPairIsOperand(lo: Level, hi: Level, toks: seq<Token>, pos: nat, diags: seq<Diagnostic>)
    requires LevelPrec(lo) < LevelPrec(hi)
    requires ValidPos(toks, pos) && IsAtom(toks[pos].kind)
    requires toks[pos + 1].kind in Operators(hi) && IsAtom(toks[pos + 2].kind)
    requires Ends(toks[pos + 3].kind)
    ensures ValidPos(toks, pos + 3)
    ensures ParseOperand(lo, toks, pos, diags)
         == Parsed(Ok(Node(hi, AtomOf(toks[pos]), toks[pos + 1], AtomOf(toks[pos + 2]))), pos + 3, diags)
  {
    PairRun(hi, toks, pos, diags);
    Climb(hi, Next(lo), toks, pos, diags);
  }

  /** `a lo b hi c`, where `hi` binds tighter than `lo`: the tighter
      operator takes `b` and `c` first, `a lo (b hi c)`. */
  lemma TighterTakesRightOperand(lo: Level, hi: Level, toks: seq<Token>, pos: nat, diags: seq<Diagnostic>)
    requires LevelPrec(lo) < LevelPrec(hi)
    requires ValidPos(toks, pos) && IsAtom(toks[pos].kind)
    requires toks[pos + 1].kind in Operators(lo) && IsAtom(toks[pos + 2].kind)
    requires toks[pos + 3].kind in Operators(hi) && IsAtom(toks[pos + 4].kind)
    requires Ends(toks[pos + 5].kind)
    ensures var pair := Node(hi, AtomOf(toks[pos + 2]), toks[pos + 3], AtomOf(toks[pos + 4]));
      ParseExpression(toks, pos, diags)
      == Parsed(Ok(Node(lo, AtomOf(toks[pos]), toks[pos + 1], pair)), pos + 5, diags)
  {
    LooserRun(lo, hi, toks, pos, diags);
    ExpressionIsLevel(lo, toks, pos, diags);
  }

  /** The binary level `lo` over `a lo b hi c`. */
  lemma LooserRun(lo: Level, hi: Level, toks: seq<Token>, pos: nat, diags: seq<Diagnostic>)
    requires LevelPrec(lo) < LevelPrec(hi)
    requires ValidPos(toks, pos) && IsAtom(toks[pos].kind)
    requires toks[pos + 1].kind in Operators(lo) && IsAtom(toks[pos + 2].kind)
    requires toks[pos + 3].kind in Operators(hi) && IsAtom(toks[pos + 4].kind)
    requires Ends(toks[pos + 5].kind)
    ensures var pair := Node(hi, AtomOf(toks[pos + 2]), toks[pos + 3], AtomOf(toks[pos + 4]));
      ParseBinary(lo, toks, pos, diags)
      == Parsed(Ok(Node(lo, AtomOf(toks[pos]), toks[pos + 1], pair)), pos + 5, diags)
  {
    IsOperator(toks[pos + 1].kind, lo);
    LevelStartsWithAtom(lo, toks, pos, diags);
    FoldPair(lo, hi, toks, AtomOf(toks[pos]), pos + 1, diags);
    LoopStops(lo, toks, Node(lo, AtomOf(toks[pos]), toks[pos + 1], Node(hi, AtomOf(toks[pos + 2]), toks[pos + 3], AtomOf(toks[pos + 4]))), pos + 5, diags);
  }

  /** A looser operator followed by `b hi c` folds the whole pair into the
      left operand. */
  lemma FoldPair(lo: Level, hi: Level, toks: seq<Token>, left: Expr, pos: nat, diags: seq<Diagnostic>)
    requires LevelPrec(lo) < LevelPrec(hi)
    requires ValidPos(toks, pos) && toks[pos].kind in Operators(lo) && IsAtom(toks[pos + 1].kind)
    requires toks[pos + 2].kind in Operators(hi) && IsAtom(toks[pos + 3].kind)
    requires Ends(toks[pos + 4].kind)
    ensures ValidPos(toks, pos + 4)
    ensures var pair := Node(hi, AtomOf(toks[pos + 1]), toks[pos + 2], AtomOf(toks[pos + 3]));
      BinaryLoop(lo, toks, left, pos, diags) == BinaryLoop(lo, toks, Node(lo, left, toks[pos], pair), pos + 4, diags)
  {
    IsOperator(toks[pos].kind, lo);
    NextIsValid(toks, pos);
    TightPairIsOperand(lo, hi, toks, pos + 1, diags);
    FoldOperand(lo, toks, left, pos, diags, Node(hi, AtomOf(toks[pos + 1]), toks[pos + 2], AtomOf(toks[pos + 3])), pos + 4);
  }

  /** A name followed by `=` is an assignment to that name of the
      expression after the `=`, whatever that expression is; a failure
      there is the failure of the whole. */
  lemma NameIsTarget(toks: seq<Token>, pos: nat, diags: seq<Diagnostic>)
    requires ValidPos(toks, pos) && toks[pos].kind == IDENTIFIER && toks[pos + 1].kind == EQUAL
    ensures ValidPos(toks, pos + 2)
    ensures var rhs := ParseExpression(toks, pos + 2, diags);
      ParseExpression(toks, pos, diags)
      == if rhs.result.ParseError? then rhs else Parsed(Ok(Assign(toks[pos], rhs.result.value)), rhs.pos, rhs.diags)
  {
    NextIsValid(toks, pos);
    NextIsValid(toks, pos + 1);
    LevelStartsWithAtom(OrLevel, toks, pos, diags);
    assert Operators(OrLevel) == [OR];
    BinaryLoopStep(OrLevel, toks, AtomOf(toks[pos]), pos + 1, diags);
  }

  /** Whatever the left of an `=` parses to, unless it is a bare name, is
      no target: a group, a call, a binary or a literal. The report names
      the `=` and comes after any report the right-hand side makes, and the
      left comes back unchanged, with no `Assign` node. */
  lemma ValueIsNoTarget(toks: seq<Token>, pos: nat, diags: seq<Diagnostic>)
    requires ValidPos(toks, pos)
    requires var lhs := ParseBinary(OrLevel, toks, pos, diags);
      lhs.result.Ok? && !lhs.result.value.Variable? && toks[lhs.pos].kind == EQUAL
    ensures var lhs := ParseBinary(OrLevel, toks, pos, diags);
      ValidPos(toks, lhs.pos + 1) &&
      var rhs := ParseExpression(toks, lhs.pos + 1, lhs.diags);
      ParseExpression(toks, pos, diags)
      == if rhs.result.ParseError? then rhs
         else Parsed(Ok(lhs.result.value), rhs.pos, rhs.diags + [Diagnostic(toks[lhs.pos], InvalidAssignmentTarget)])
  {
    assert Matches(toks, ParseBinary(OrLevel, toks, pos, diags).pos, [EQUAL]);
  }

  /** The one-token case of `ValueIsNoTarget`: a literal followed by `=`. */
  lemma LiteralIsNoTarget(toks: seq<Token>, pos: nat, diags: seq<Diagnostic>)
    requires ValidPos(toks, pos) && IsAtom(toks[pos].kind) && toks[pos].kind != IDENTIFIER
    requires toks[pos + 1].kind == EQUAL
    ensures ValidPos(toks, pos + 2)
    ensures var rhs := ParseExpression(toks, pos + 2, diags);
      ParseExpression(toks, pos, diags)
      == if rhs.result.ParseError? then rhs
         else Parsed(Ok(AtomOf(toks[pos])), rhs.pos, rhs.diags + [Diagnostic(toks[pos + 1], InvalidAssignmentTarget)])
  {
    NextIsValid(toks, pos);
    NextIsValid(toks, pos + 1);
    LevelStartsWithAtom(OrLevel, toks, pos, diags);
    assert Operators(OrLevel) == [OR];
    BinaryLoopStep(OrLevel, toks, AtomOf(toks[pos]), pos + 1, diags);
  }

  /** `x = y = v`, two names and a one-token value, groups to the right:
      the value is assigned to `y` and that assignment to `x`. */
  lemma AssignmentsGroupRight(toks: seq<Token>, pos: nat, diags: seq<Diagnostic>)
    requires ValidPos(toks, pos) && toks[pos].kind == IDENTIFIER && toks[pos + 1].kind == EQUAL
    requires toks[pos + 2].kind == IDENTIFIER && toks[pos + 3].kind == EQUAL
    requires IsAtom(toks[pos + 4].kind) && Ends(toks[pos + 5].kind)
    ensures ParseExpression(toks, pos, diags)
         == Parsed(Ok(Assign(toks[pos], Assign(toks[pos + 2], AtomOf(toks[pos + 4])))), pos + 5, diags)
  {
    NameIsTarget(toks, pos, diags);
    NameIsTarget(toks, pos + 2, diags);
    AtomIsExpression(toks, pos + 4, diags);
  }
}
