/** The operator-precedence table that the chain of expression methods in
    Parser.java encodes, and the shape every tree the chain builds has.

    Precedence numbers grow with binding strength: assignment 1, `or` 2,
    `and` 3, equality 4, comparison 5, addition 6, multiplication 7, unary 8,
    call 9, primary 10. */
module Precedence {
  import opened Tokens
  import opened Ast

  /** The six left-associative binary levels, loosest first. */
  datatype Level = OrLevel | AndLevel | EqualityLevel | ComparisonLevel | AdditionLevel | MultiplicationLevel

  const AssignPrec: nat := 1
  const UnaryPrec: nat := 8
  const CallPrec: nat := 9
  const PrimaryPrec: nat := 10

  /** The operator kinds one level's loop matches, in the order Java lists them. */
  function Operators(lv: Level): seq<TokenType>
  {
    match lv
    case OrLevel => [OR]
    case AndLevel => [AND]
    case EqualityLevel => [BANG_EQUAL, EQUAL_EQUAL]
    case ComparisonLevel => [GREATER, GREATER_EQUAL, LESS, LESS_EQUAL]
    case AdditionLevel => [PLUS, MINUS]
    case MultiplicationLevel => [STAR, SLASH]
  }

  /** `or` and `and` build `Logical` nodes; the other levels build `Binary`. */
  predicate IsLogical(lv: Level)
  {
    lv == OrLevel || lv == AndLevel
  }

  function LevelPrec(lv: Level): nat
  {
    match lv
    case OrLevel => 2
    case AndLevel => 3
    case EqualityLevel => 4
    case ComparisonLevel => 5
    case AdditionLevel => 6
    case MultiplicationLevel => 7
  }

  /** The level whose method a level calls for its operands; multiplication
      calls `unary()` instead. */
  function Next(lv: Level): (r: Level)
    requires lv != MultiplicationLevel
    ensures LevelPrec(r) == LevelPrec(lv) + 1
  {
    match lv
    case OrLevel => AndLevel
    case AndLevel => EqualityLevel
    case EqualityLevel => ComparisonLevel
    case ComparisonLevel => AdditionLevel
    case AdditionLevel => MultiplicationLevel
  }

  /** The binary level an operator kind belongs to, if any. */
  function OperatorLevel(kind: TokenType): (r: Option<Level>)
    ensures forall lv :: kind in Operators(lv) <==> r == Some(lv)
  {
    if kind == OR then Some(OrLevel)
    else if kind == AND then Some(AndLevel)
    else if kind == BANG_EQUAL then Some(EqualityLevel)
    else if kind == EQUAL_EQUAL then Some(EqualityLevel)
    else if kind == GREATER then Some(ComparisonLevel)
    else if kind == GREATER_EQUAL then Some(ComparisonLevel)
    else if kind == LESS then Some(ComparisonLevel)
    else if kind == LESS_EQUAL then Some(ComparisonLevel)
    else if kind == PLUS then Some(AdditionLevel)
    else if kind == MINUS then Some(AdditionLevel)
    else if kind == STAR then Some(MultiplicationLevel)
    else if kind == SLASH then Some(MultiplicationLevel)
    else None
  }

  /** The precedence of a tree's root; 0 for an operator node whose operator
      belongs to no level (the parser never builds one). */
  function Prec(e: Expr): nat
  {
    match e
    case Assign(_, _) => AssignPrec
    case Binary(_, op, _) => if OperatorLevel(op.kind).Some? then LevelPrec(OperatorLevel(op.kind).value) else 0
    case Logical(_, op, _) => if OperatorLevel(op.kind).Some? then LevelPrec(OperatorLevel(op.kind).value) else 0
    case Unary(_, _) => UnaryPrec
    case Call(_, _, _) => CallPrec
    case _ => PrimaryPrec
  }

  /** The trees the expression chain can build: every operator node's left
      operand binds at least as tightly as the node (left associativity), its
      right operand strictly more tightly, a unary operand is itself unary or
      tighter, a callee is a call or a primary, and names, operators and the
      closing parenthesis of a call carry the token kinds the grammar demands. */
  predicate WellNested(e: Expr)
  {
    match e
    case Literal(_) => true
    case Grouping(inner) => WellNested(inner)
    case Unary(op, right) =>
      (op.kind == BANG || op.kind == MINUS) && Prec(right) >= UnaryPrec && WellNested(right)
    case Binary(left, op, right) =>
      OperatorLevel(op.kind).Some? && !IsLogical(OperatorLevel(op.kind).value) &&
      Prec(left) >= Prec(e) && Prec(right) > Prec(e) && WellNested(left) && WellNested(right)
    case Logical(left, op, right) =>
      OperatorLevel(op.kind).Some? && IsLogical(OperatorLevel(op.kind).value) &&
      Prec(left) >= Prec(e) && Prec(right) > Prec(e) && WellNested(left) && WellNested(right)
    case Variable(name) => name.kind == IDENTIFIER
    case Assign(name, value) => name.kind == IDENTIFIER && WellNested(value)
    case Call(callee, paren, args) =>
      paren.kind == RIGHT_PAREN && Prec(callee) >= CallPrec && WellNested(callee) &&
      forall i :: 0 <= i < |args| ==> WellNested(args[i])
  }
}
