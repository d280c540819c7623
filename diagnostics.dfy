/** The syntax errors the parser reports through `Lox.error(Token, String)`.

    The parser only hands a token and a message to the reporter; the reporter
    prints `[line N] Error<where>; <message>` and sets a global flag. Here a
    report is a value that the parser appends to its list of diagnostics. */
module Diagnostics {
  import opened Tokens

  /** A report's text. The parser's messages, spelled as Parser.java spells
      them; the function-declaration messages are those for the only kind of
      function this parser reads, "function". */
  type Message = string

  const ExpectExpression: Message := "Expect expression."
  const InvalidAssignmentTarget: Message := "Invalid assignment target."
  const ExpectParenAfterArguments: Message := "Expect ')'after arguments."
  const ExpectParenAfterExpression: Message := "Expect ')'after expression."
  const TooManyArguments: Message := "Cannot have more than " + Decimal(MaxArgs) + " arguments"
  const TooManyParameters: Message := "Cannot have more than " + Decimal(MaxArgs) + " parameters"
  const ExpectVariableName: Message := "Expect variable name."
  const ExpectSemicolonAfterVariable: Message := "Expect ';' after variable declaration."
  const ExpectParenAfterWhile: Message := "Expect '(' after 'while'."
  const ExpectParenAfterCondition: Message := "Expect ')' after condition."
  const ExpectParenAfterFor: Message := "Expect '(' after 'for'."
  const ExpectSemicolonAfterLoopCondition: Message := "Expect ';'after loop condition."
  const ExpectParenAfterForClauses: Message := "Expect ')'after for clauses."
  const ExpectParenAfterIf: Message := "Expect '(' after if."
  const ExpectParenAfterIfCondition: Message := "Expect ')' after if condition"
  const ExpectSemicolonAfterExpression: Message := "Expect ';' after expression."
  const ExpectSemicolonAfterReturnValue: Message := "Expect ';' after return value"
  const ExpectFunctionName: Message := "Expect function name."
  const ExpectParenAfterFunctionName: Message := "Expect '(' after function name."
  const ExpectParameterName: Message := "Expect parameter name"
  const ExpectParenAfterParameters: Message := "Expect ')'after parameters."
  const ExpectBraceBeforeFunctionBody: Message := "Expect { before function body."
  const ExpectBraceAfterBlock: Message := "Expect '}' after block."

  /** One report of `Lox.error`: the token it names and its message. */
  datatype Diagnostic = Diagnostic(token: Token, message: Message)

  /** The most arguments or parameters accepted without a report. */
  const MaxArgs: nat := 8

  /** The location text of a report: " at end" for the end-of-input token,
      otherwise the offending lexeme in quotes. */
  function Where(token: Token): (r: string)
    ensures r == " at end" <==> token.kind == EOF
  {
    if token.kind == EOF then " at end"
    else
      var quoted := " at '" + token.lexeme + "'";
      assert quoted[4] == '\'' != " at end"[4];
      quoted
  }

  /** Decimal digits of a natural number, as Java's string concatenation
      prints an `int`. */
  function Decimal(n: nat): (r: string)
    ensures |r| > 0
  {
    var digit := "0123456789"[n % 10];
    if n < 10 then [digit] else Decimal(n / 10) + [digit]
  }
}
