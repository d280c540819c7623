/** The expression chain of Parser.java (assignment, or, and, equality,
    comparison, addition, multiplication, unary, call, primary) as functions
    of the token list, a read index and the diagnostics reported so far.

    Each function returns what the Java method returns (or `ParseError` where
    it throws), the read index it leaves behind and the diagnostics list
    extended by its own reports. After a successful `Matches` the matched
    token is `toks[pos]` and the read index moves to `pos + 1`. The six
    binary methods share one shape and are one function here, `ParseBinary`,
    indexed by the `Level`.

    Termination: every function decreases the pair (tokens left, rank), where
    a function only calls one of lower rank without consuming a token first. */
module ExprGrammar {
  import opened Tokens
  import opened Ast
  import opened Diagnostics
  import opened Cursor
  import opened Precedence

  /** `expression()`. */
  function ParseExpression(toks: seq<Token>, pos: nat, diags: seq<Diagnostic>): (r: Parsed<Expr>)
    requires ValidPos(toks, pos)
    ensures Steps(toks, pos, r)
    ensures Reports(diags, r)
    ensures r.result.Ok? ==> WellNested(r.result.value)
    decreases |toks| - pos, 18
  {
    ParseAssignment(toks, pos, diags)
  }

  /** `assignment()`: an `or` operand, and if `=` follows, a right-hand side
      parsed by recursion (so assignment groups to the right). A target that
      is not a variable is reported at the `=` and the left-hand side is
      returned as it is. */
  function ParseAssignment(toks: seq<Token>, pos: nat, diags: seq<Diagnostic>): (r: Parsed<Expr>)
    requires ValidPos(toks, pos)
    ensures Steps(toks, pos, r)
    ensures Reports(diags, r)
    ensures r.result.Ok? ==> WellNested(r.result.value)
    decreases |toks| - pos, 17
  {
    var lhs := ParseBinary(OrLevel, toks, pos, diags);
    if lhs.result.ParseError? || !Matches(toks, lhs.pos, [EQUAL]) then lhs
    else
      var rhs := ParseAssignment(toks, lhs.pos + 1, lhs.diags);
      if rhs.result.ParseError? then rhs
      else if lhs.result.value.Variable? then
        Parsed(Ok(Assign(lhs.result.value.name, rhs.result.value)), rhs.pos, rhs.diags)
      else
        Parsed(Ok(lhs.result.value), rhs.pos, rhs.diags + [Diagnostic(toks[lhs.pos], InvalidAssignmentTarget)])
  }

  /** The node one binary level builds: Logical for `or` and `and`, Binary
      otherwise. */
  function Node(lv: Level, left: Expr, op: Token, right: Expr): (r: Expr)
    ensures op.kind in Operators(lv) ==> Prec(r) == LevelPrec(lv)
    ensures op.kind in Operators(lv) ==>
              (WellNested(r) <==> WellNested(left) && WellNested(right) && Prec(left) >= LevelPrec(lv) && Prec(right) > LevelPrec(lv))
  {
    if IsLogical(lv) then Logical(left, op, right) else Binary(left, op, right)
  }

  /** The operand of a binary level: the next level, or `unary()` below
      multiplication. */
  function ParseOperand(lv: Level, toks: seq<Token>, pos: nat, diags: seq<Diagnostic>): (r: Parsed<Expr>)
    requires ValidPos(toks, pos)
    ensures Steps(toks, pos, r)
    ensures Reports(diags, r)
    ensures r.result.Ok? ==> WellNested(r.result.value) && Prec(r.result.value) > LevelPrec(lv)
    decreases |toks| - pos, 19 - 2 * LevelPrec(lv)
  {
    if lv == MultiplicationLevel then ParseUnary(toks, pos, diags) else ParseBinary(Next(lv), toks, pos, diags)
  }

  /** `or()`, `and()`, `equality()`, `comparison()`, `addition()` and
      `multiplication()`: one operand, then the loop. */
  function ParseBinary(lv: Level, toks: seq<Token>, pos: nat, diags: seq<Diagnostic>): (r: Parsed<Expr>)
    requires ValidPos(toks, pos)
    ensures Steps(toks, pos, r)
    ensures Reports(diags, r)
    ensures r.result.Ok? ==> WellNested(r.result.value) && Prec(r.result.value) >= LevelPrec(lv)
    decreases |toks| - pos, 20 - 2 * LevelPrec(lv)
  {
    var first := ParseOperand(lv, toks, pos, diags);
    if first.result.ParseError? then first
    else BinaryLoop(lv, toks, first.result.value, first.pos, first.diags)
  }

  /** The `while (match(...))` loop of a binary level: while the current
      token is one of the level's operators, consume it, parse an operand and
      fold it into the left operand. */
  function BinaryLoop(lv: Level, toks: seq<Token>, left: Expr, pos: nat, diags: seq<Diagnostic>): (r: Parsed<Expr>)
    requires ValidPos(toks, pos)
    ensures Steps(toks, pos, r)
    ensures Reports(diags, r)
    ensures r.result.Ok? && WellNested(left) && Prec(left) >= LevelPrec(lv) ==>
              WellNested(r.result.value) && Prec(r.result.value) >= LevelPrec(lv)
    decreases |toks| - pos, 2
  {
    if !Matches(toks, pos, Operators(lv)) then Parsed(Ok(left), pos, diags)
    else
      var right := ParseOperand(lv, toks, pos + 1, diags);
      if right.result.ParseError? then right
      else BinaryLoop(lv, toks, Node(lv, left, toks[pos], right.result.value), right.pos, right.diags)
  }

  /** One turn of the loop of a binary level, case by case: no operator
      ends the loop, a failed right operand ends the level with that
      failure, and otherwise the operator and its right operand fold into
      the left operand. */
  lemma BinaryLoopStep(lv: Level, toks: seq<Token>, left: Expr, pos: nat, diags: seq<Diagnostic>)
    requires ValidPos(toks, pos)
    ensures !Matches(toks, pos, Operators(lv)) ==> BinaryLoop(lv, toks, left, pos, diags) == Parsed(Ok(left), pos, diags)
    ensures Matches(toks, pos, Operators(lv)) ==>
      ValidPos(toks, pos + 1) &&
      var right := ParseOperand(lv, toks, pos + 1, diags);
      BinaryLoop(lv, toks, left, pos, diags)
      == if right.result.ParseError? then right
         else BinaryLoop(lv, toks, Node(lv, left, toks[pos], right.result.value), right.pos, right.diags)
  {
  }

  /** `unary()`: prefix `!` and `-` stack by recursion; otherwise a call. */
  function ParseUnary(toks: seq<Token>, pos: nat, diags: seq<Diagnostic>): (r: Parsed<Expr>)
    requires ValidPos(toks, pos)
    ensures Steps(toks, pos, r)
    ensures Reports(diags, r)
    ensures r.result.Ok? ==> WellNested(r.result.value) && Prec(r.result.value) >= UnaryPrec
    decreases |toks| - pos, 2
  {
    if Matches(toks, pos, [BANG, MINUS]) then
      var right := ParseUnary(toks, pos + 1, diags);
      if right.result.ParseError? then right
      else Parsed(Ok(Unary(toks[pos], right.result.value)), right.pos, right.diags)
    else ParseCall(toks, pos, diags)
  }

  /** `call()`: a primary followed by any number of argument lists. */
  function ParseCall(toks: seq<Token>, pos: nat, diags: seq<Diagnostic>): (r: Parsed<Expr>)
    requires ValidPos(toks, pos)
    ensures Steps(toks, pos, r)
    ensures Reports(diags, r)
    ensures r.result.Ok? ==> WellNested(r.result.value) && Prec(r.result.value) >= CallPrec
    decreases |toks| - pos, 1
  {
    var callee := ParsePrimary(toks, pos, diags);
    if callee.result.ParseError? then callee
    else CallLoop(toks, callee.result.value, callee.pos, callee.diags)
  }

  /** The `while (true)` loop of `call()`: each `(` starts one more call. */
  function CallLoop(toks: seq<Token>, callee: Expr, pos: nat, diags: seq<Diagnostic>): (r: Parsed<Expr>)
    requires ValidPos(toks, pos)
    ensures Steps(toks, pos, r)
    ensures Reports(diags, r)
    ensures r.result.Ok? && WellNested(callee) && Prec(callee) >= CallPrec ==>
              WellNested(r.result.value) && Prec(r.result.value) >= CallPrec
    decreases |toks| - pos, 0
  {
    if !Matches(toks, pos, [LEFT_PAREN]) then Parsed(Ok(callee), pos, diags)
    else
      var call := FinishCall(toks, callee, pos + 1, diags);
      if call.result.ParseError? then call
      else CallLoop(toks, call.result.value, call.pos, call.diags)
  }

  /** `finishCall(callee)`, entered just after the `(`: the arguments, if
      any, then the closing `)`, which the node keeps. */
  function FinishCall(toks: seq<Token>, callee: Expr, pos: nat, diags: seq<Diagnostic>): (r: Parsed<Expr>)
    requires ValidPos(toks, pos)
    ensures Steps(toks, pos, r)
    ensures Reports(diags, r)
    ensures r.result.Ok? ==> r.result.value.Call? && r.result.value.callee == callee && r.result.value.paren.kind == RIGHT_PAREN
    ensures r.result.Ok? ==> forall i :: 0 <= i < |r.result.value.arguments| ==> WellNested(r.result.value.arguments[i])
    decreases |toks| - pos, 21
  {
    var args := if Check(toks, pos, RIGHT_PAREN) then Parsed(Ok([]), pos, diags) else ParseArguments(toks, [], pos, diags);
    if args.result.ParseError? then Parsed(ParseError, args.pos, args.diags)
    else
      var paren := Consume(toks, args.pos, args.diags, RIGHT_PAREN, ExpectParenAfterArguments);
      if paren.result.ParseError? then Parsed(ParseError, paren.pos, paren.diags)
      else Parsed(Ok(Call(callee, paren.result.value, args.result.value)), paren.pos, paren.diags)
  }

  /** The report for an argument or parameter beyond `MaxArgs`, made at the
      token it starts with; `count` is how many were read before it. */
  function ReportArity(toks: seq<Token>, pos: nat, diags: seq<Diagnostic>, count: nat, message: Message): (r: seq<Diagnostic>)
    requires ValidPos(toks, pos)
    ensures diags <= r
    ensures |r| == |diags| + 1 <==> count >= MaxArgs
    ensures |r| != |diags| + 1 ==> r == diags
    ensures count >= MaxArgs ==> r[|diags|] == Diagnostic(toks[pos], message)
  {
    if count >= MaxArgs then diags + [Diagnostic(Peek(toks, pos), message)] else diags
  }

  /** The `do ... while (match(COMMA))` loop of `finishCall`, with the
      arguments parsed so far: an argument beyond `MaxArgs` is reported and
      parsed all the same. */
  function ParseArguments(toks: seq<Token>, args: seq<Expr>, pos: nat, diags: seq<Diagnostic>): (r: Parsed<seq<Expr>>)
    requires ValidPos(toks, pos)
    ensures Steps(toks, pos, r)
    ensures Reports(diags, r)
    ensures r.result.Ok? ==> |r.result.value| > |args| && r.result.value[..|args|] == args
    ensures r.result.Ok? && (forall i :: 0 <= i < |args| ==> WellNested(args[i])) ==>
              forall i :: 0 <= i < |r.result.value| ==> WellNested(r.result.value[i])
    decreases |toks| - pos, 20
  {
    var arg := ParseExpression(toks, pos, ReportArity(toks, pos, diags, |args|, TooManyArguments));
    if arg.result.ParseError? then Parsed(ParseError, arg.pos, arg.diags)
    else if Matches(toks, arg.pos, [COMMA]) then ParseArguments(toks, args + [arg.result.value], arg.pos + 1, arg.diags)
    else Parsed(Ok(args + [arg.result.value]), arg.pos, arg.diags)
  }

  /** The token kinds a primary expression can start with. None of them is
      the end of input, `=` or an operator of a binary level, so a primary
      never takes the place of what ends an operand. */
  predicate StartsPrimary(kind: TokenType)
    ensures StartsPrimary(kind) ==> kind != EOF && kind != EQUAL && OperatorLevel(kind).None?
  {
    kind in {FALSE, TRUE, NIL, NUMBER, STRING, LEFT_PAREN, IDENTIFIER}
  }

  /** `primary()`: a literal, a parenthesised group that must close with `)`,
      or a variable; any other token fails with `ExpectExpression`. */
  function ParsePrimary(toks: seq<Token>, pos: nat, diags: seq<Diagnostic>): (r: Parsed<Expr>)
    requires ValidPos(toks, pos)
    ensures Steps(toks, pos, r)
    ensures Reports(diags, r)
    ensures r.result.Ok? ==> WellNested(r.result.value) && Prec(r.result.value) == PrimaryPrec
    ensures r.result.Ok? ==> StartsPrimary(toks[pos].kind)
    ensures !StartsPrimary(toks[pos].kind) ==> r == Parsed(ParseError, pos, diags + [Diagnostic(toks[pos], ExpectExpression)])
    decreases |toks| - pos, 0
  {
    if Matches(toks, pos, [FALSE]) then Parsed(Ok(Literal(Bool(false))), pos + 1, diags)
    else if Matches(toks, pos, [TRUE]) then Parsed(Ok(Literal(Bool(true))), pos + 1, diags)
    else if Matches(toks, pos, [NIL]) then Parsed(Ok(Literal(Nil)), pos + 1, diags)
    else if Matches(toks, pos, [NUMBER, STRING]) then Parsed(Ok(Literal(toks[pos].literal)), pos + 1, diags)
    else if Matches(toks, pos, [LEFT_PAREN]) then
      var inner := ParseExpression(toks, pos + 1, diags);
      if inner.result.ParseError? then inner
      else
        var close := Consume(toks, inner.pos, inner.diags, RIGHT_PAREN, ExpectParenAfterExpression);
        if close.result.ParseError? then Parsed(ParseError, close.pos, close.diags)
        else Parsed(Ok(Grouping(inner.result.value)), close.pos, close.diags)
    else if Matches(toks, pos, [IDENTIFIER]) then Parsed(Ok(Variable(toks[pos])), pos + 1, diags)
    else Parsed(ParseError, pos, diags + [Diagnostic(Peek(toks, pos), ExpectExpression)])
  }
}
