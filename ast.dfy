/** The syntax trees the parser builds. The node kinds and their fields are the
    ones Parser.java constructs; every node is an immutable value, so a tree
    never shares or cycles. */
module Ast {
  import opened Tokens

  /** Java's nullable references: an absent initializer, `else` branch or
      return value, and the `null` that a failed declaration leaves behind. */
  datatype Option<+T> = None | Some(value: T)

  datatype Expr =
    | Literal(literal: Value)
    | Grouping(expression: Expr)
    | Unary(op: Token, right: Expr)
    | Binary(left: Expr, op: Token, right: Expr)
    | Logical(left: Expr, op: Token, right: Expr)
    | Variable(name: Token)
    | Assign(name: Token, value: Expr)
    | Call(callee: Expr, paren: Token, arguments: seq<Expr>)

  /** A statement list is a list of what `declaration()` returned, so an entry
      is `None` where a declaration failed (Java adds the `null`). */
  datatype Stmt =
    | Expression(expression: Expr)
    | Print(expression: Expr)
    | Var(name: Token, initializer: Option<Expr>)
    | Block(statements: seq<Option<Stmt>>)
    | If(condition: Expr, thenBranch: Stmt, elseBranch: Option<Stmt>)
    | While(condition: Expr, body: Stmt)
    | Function(name: Token, params: seq<Token>, statements: seq<Option<Stmt>>)
    | Return(keyword: Token, value: Option<Expr>)

  /** No statement list anywhere in `s` holds a failed (`None`) entry. */
  predicate Complete(s: Stmt)
    decreases s
  {
    match s
    case Block(ss) => forall i :: 0 <= i < |ss| ==> ss[i].Some? && Complete(ss[i].value)
    case If(_, t, e) => Complete(t) && (e.Some? ==> Complete(e.value))
    case While(_, b) => Complete(b)
    case Function(_, _, ss) => forall i :: 0 <= i < |ss| ==> ss[i].Some? && Complete(ss[i].value)
    case _ => true
  }

  /** Every entry of a statement list is present and complete. */
  predicate AllComplete(ss: seq<Option<Stmt>>)
  {
    forall i :: 0 <= i < |ss| ==> ss[i].Some? && Complete(ss[i].value)
  }

  /** How many entries of a statement list are failed declarations. */
  function Failed(ss: seq<Option<Stmt>>): nat
  {
    if |ss| == 0 then 0 else Failed(ss[..|ss| - 1]) + (if ss[|ss| - 1].None? then 1 else 0)
  }
}
