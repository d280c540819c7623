/** The token cursor of Parser.java as pure functions of the token list and
    the read index `current`. Every grammar function below is stated in terms
    of these primitives. */
module Cursor {
  import opened Tokens
  import opened Diagnostics

  /** A production either yields a value or fails with `ParseError`, the
      exception Parser.java throws; the failure carries nothing, its report
      has already been made. */
  datatype Result<+T> = Ok(value: T) | ParseError

  /** What one call of a production does: its result, the read index after
      it, and the diagnostics reported so far, which every production takes
      as an input and only extends, the way the Java parser's reports
      accumulate over a run. */
  datatype Parsed<+T> = Parsed(result: Result<T>, pos: nat, diags: seq<Diagnostic>)

  /** What the scanner delivers: a non-empty list whose last token is `EOF`. */
  predicate WellFormed(toks: seq<Token>)
  {
    |toks| > 0 && toks[|toks| - 1].kind == EOF
  }

  /** The index of the first `EOF` token, where parsing stops. */
  function FirstEnd(toks: seq<Token>): (n: nat)
    requires WellFormed(toks)
    ensures n < |toks| && toks[n].kind == EOF
  {
    FirstEndFrom(toks, 0)
  }

  /** The index of the first `EOF` token at or after `i`. */
  function FirstEndFrom(toks: seq<Token>, i: nat): (n: nat)
    requires WellFormed(toks) && i < |toks|
    ensures i <= n < |toks| && toks[n].kind == EOF
    decreases |toks| - i
  {
    if toks[i].kind == EOF then i else FirstEndFrom(toks, i + 1)
  }

  /** No token before `FirstEndFrom(toks, i)` and from `i` on is `EOF`. */
  lemma {:induction false} FirstEndFromIsFirst(toks: seq<Token>, i: nat)
    requires WellFormed(toks) && i < |toks|
    ensures forall q :: i <= q < FirstEndFrom(toks, i) ==> toks[q].kind != EOF
    decreases |toks| - i
  {
    if toks[i].kind != EOF {
      FirstEndFromIsFirst(toks, i + 1);
    }
  }

  /** A read index over a well-formed token list. The cursor never passes
      the first `EOF`: everything the parser reads lies before it or is it. */
  predicate ValidPos(toks: seq<Token>, pos: int)
  {
    WellFormed(toks) && 0 <= pos <= FirstEnd(toks)
  }

  /** A production leaves the cursor on a token and never moves it back. */
  predicate Steps<T>(toks: seq<Token>, pos: nat, r: Parsed<T>)
  {
    ValidPos(toks, r.pos) && pos <= r.pos
  }

  /** A production only appends to the diagnostics, and never fails without
      appending at least one. */
  predicate Reports<T>(diags: seq<Diagnostic>, r: Parsed<T>)
  {
    diags <= r.diags && (r.result.ParseError? ==> |diags| < |r.diags|)
  }

  /** `peek()`: the token under the cursor, which is `EOF` exactly at the
      first `EOF` of the list. */
  function Peek(toks: seq<Token>, pos: nat): (t: Token)
    requires ValidPos(toks, pos)
    ensures t.kind == EOF <==> pos == FirstEnd(toks)
  {
    FirstEndFromIsFirst(toks, 0);
    toks[pos]
  }

  /** `isAtEnd()`: the cursor stands on the first `EOF`. */
  predicate IsAtEnd(toks: seq<Token>, pos: nat)
    requires ValidPos(toks, pos)
    ensures IsAtEnd(toks, pos) <==> pos == FirstEnd(toks)
  {
    Peek(toks, pos).kind == EOF
  }

  /** Non-consuming test of the current kind: false at the end of input, so
      `check(EOF)` never holds; for any other kind, whether the current token
      has it. */
  predicate Check(toks: seq<Token>, pos: nat, kind: TokenType)
    requires ValidPos(toks, pos)
    ensures Check(toks, pos, kind) ==> kind != EOF
    ensures kind != EOF ==> (Check(toks, pos, kind) <==> toks[pos].kind == kind)
  {
    !IsAtEnd(toks, pos) && Peek(toks, pos).kind == kind
  }

  /** `previous()`: the token before the cursor, which lies before the first
      `EOF` and so is never `EOF` itself. */
  function Previous(toks: seq<Token>, pos: nat): (t: Token)
    requires ValidPos(toks, pos) && pos > 0
    ensures t.kind != EOF
  {
    FirstEndFromIsFirst(toks, 0);
    toks[pos - 1]
  }

  /** The read index after `advance()`: one further, except at `EOF`, which
      the cursor never passes, so the index always stays on a token. */
  function Advance(toks: seq<Token>, pos: nat): (r: nat)
    requires ValidPos(toks, pos)
    ensures ValidPos(toks, r)
    ensures r == pos <==> IsAtEnd(toks, pos)
    ensures r != pos ==> r == pos + 1
  {
    if IsAtEnd(toks, pos) then pos else pos + 1
  }

  /** `match(types)` consumes the current token exactly when this holds:
      `check` holds of one of `types`. */
  predicate Matches(toks: seq<Token>, pos: nat, types: seq<TokenType>)
    requires ValidPos(toks, pos)
    ensures Matches(toks, pos, types) <==> exists k :: k in types && Check(toks, pos, k)
  {
    !IsAtEnd(toks, pos) && Peek(toks, pos).kind in types
  }

  /** `consume(kind, message)`: the current token when it has the expected
      kind, otherwise one report at the current token and a failure, with the
      cursor left where it was. */
  function Consume(toks: seq<Token>, pos: nat, diags: seq<Diagnostic>, kind: TokenType, message: Message): (r: Parsed<Token>)
    requires ValidPos(toks, pos)
    ensures ValidPos(toks, r.pos)
    ensures r.result.Ok? <==> Check(toks, pos, kind)
    ensures r.result.Ok? ==> r.result.value == toks[pos] && r.result.value.kind == kind && r.pos == pos + 1 && r.diags == diags
    ensures r.result.ParseError? ==> r.pos == pos && r.diags == diags + [Diagnostic(toks[pos], message)]
  {
    if Check(toks, pos, kind) then Parsed(Ok(Peek(toks, pos)), Advance(toks, pos), diags)
    else Parsed(ParseError, pos, diags + [Diagnostic(Peek(toks, pos), message)])
  }
}
