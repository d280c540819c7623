/** Panic-mode recovery: `synchronize()` of Parser.java as a function of the
    read index. */
module Recovery {
  import opened Tokens
  import opened Cursor

  /** The keywords before which recovery stops: they begin a new statement. */
  const StatementStarts: set<TokenType> := {CLASS, FUN, VAR, FOR, IF, WHILE, PRINT, RETURN}

  /** A read index where recovery may stop: the end of input, just after a
      `;`, or just before a statement keyword. These are exactly the
      indices where the loop of `synchronize()` stops at once. */
  predicate Boundary(toks: seq<Token>, pos: int)
    ensures Boundary(toks, pos) <==> ValidPos(toks, pos) && pos > 0 && SyncLoop(toks, pos) == pos
  {
    ValidPos(toks, pos) && pos > 0 &&
    (IsAtEnd(toks, pos) || toks[pos - 1].kind == SEMICOLON || toks[pos].kind in StatementStarts)
  }

  /** The `while (!isAtEnd())` loop of `synchronize()`, entered after its
      first `advance()`: the first boundary at or after `pos`. */
  function SyncLoop(toks: seq<Token>, pos: nat): (r: nat)
    requires ValidPos(toks, pos) && (pos > 0 || IsAtEnd(toks, pos))
    ensures ValidPos(toks, r) && pos <= r
    decreases |toks| - pos
  {
    if IsAtEnd(toks, pos) then pos
    else if Previous(toks, pos).kind == SEMICOLON then pos
    else if Peek(toks, pos).kind in StatementStarts then pos
    else SyncLoop(toks, Advance(toks, pos))
  }

  /** `synchronize()`: discard the current token unless it is `EOF`, then
      stop at the first boundary. Java's `advance()` evaluates `previous()`,
      so it needs a token before the cursor when it stands on `EOF`. */
  function Synchronize(toks: seq<Token>, pos: nat): (r: nat)
    requires ValidPos(toks, pos) && (pos > 0 || !IsAtEnd(toks, pos))
    ensures ValidPos(toks, r)
    ensures IsAtEnd(toks, pos) ==> r == pos
    ensures !IsAtEnd(toks, pos) ==> r > pos
  {
    SyncLoop(toks, Advance(toks, pos))
  }

  /** The loop stops at the first boundary it reaches. */
  lemma {:induction false} SyncLoopStops(toks: seq<Token>, pos: nat)
    requires ValidPos(toks, pos) && (pos > 0 || IsAtEnd(toks, pos))
    ensures pos > 0 ==> Boundary(toks, SyncLoop(toks, pos))
    ensures forall q :: pos <= q < SyncLoop(toks, pos) ==> !Boundary(toks, q)
    decreases |toks| - pos
  {
    if !IsAtEnd(toks, pos) && Previous(toks, pos).kind != SEMICOLON && Peek(toks, pos).kind !in StatementStarts {
      SyncLoopStops(toks, pos + 1);
    }
  }

  /** Recovery lands on a boundary, skipping no boundary after the token it
      discards: the next declaration starts at the first point where one
      can. */
  lemma SynchronizeStops(toks: seq<Token>, pos: nat)
    requires ValidPos(toks, pos) && (pos > 0 || !IsAtEnd(toks, pos))
    ensures Boundary(toks, Synchronize(toks, pos))
    ensures forall q :: pos < q < Synchronize(toks, pos) ==> !Boundary(toks, q)
  {
    SyncLoopStops(toks, Advance(toks, pos));
  }
}
