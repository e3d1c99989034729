/** Checkmate and stalemate detection. Both try every target of every piece of the side to
    move on a scratch board and ask `isKingInCheck` of a scratch state whose side to move
    is flipped, so the king examined there is the opponent's. */
module Terminal {
  import opened ChessTypes
  import opened Squares
  import opened Attacks
  import opened KingRules

  /** The scratch state: the piece copied to `to`, `from` cleared, the side to move flipped
      and the selection and status fields reset. No other square changes. */
  function Scratch(s: GameState, from: Position, to: Position): (r: GameState)
    requires OnBoard(from) && 0 <= to.row < 8
    ensures r.currentTurn != s.currentTurn
    ensures At(r.board, from).None?
    ensures OnBoard(to) && to != from ==> At(r.board, to) == At(s.board, from)
    ensures forall q :: OnBoard(q) && q != from && q != to ==> At(r.board, q) == At(s.board, q)
  {
    s.(board := Put(Put(s.board, to, At(s.board, from)), from, None),
       currentTurn := Opponent(s.currentTurn),
       selectedPiece := None, validMoves := [],
       isCheck := false, isCheckmate := false, isStalemate := false)
  }

  /** Every square of `ts` lies on a row of the board. */
  predicate RowsOk(ts: seq<Position>) {
    forall t :: t in ts ==> 0 <= t.row < 8
  }

  /** The squares of `ts`, tried in order until one leads to a scratch state that is not
      in check: whether such a square exists. */
  ghost predicate EscapesAmong(s: GameState, from: Position, ts: seq<Position>)
    requires OnBoard(from) && RowsOk(ts)
    decreases |ts|
  {
    ts != [] && (!InCheck(Scratch(s, from, ts[0])) || EscapesAmong(s, from, ts[1..]))
  }

  /** The scan in order finds an escape exactly when some square of the list is one. */
  lemma {:induction false} EscapesAmongMeaning(s: GameState, from: Position, ts: seq<Position>)
    requires OnBoard(from) && RowsOk(ts)
    ensures EscapesAmong(s, from, ts) <==> exists i :: 0 <= i < |ts| && !InCheck(Scratch(s, from, ts[i]))
    decreases |ts|
  {
    if ts != [] {
      EscapesAmongMeaning(s, from, ts[1..]);
      if exists i :: 0 <= i < |ts| && !InCheck(Scratch(s, from, ts[i])) {
        var i :| 0 <= i < |ts| && !InCheck(Scratch(s, from, ts[i]));
        if i > 0 {
          assert ts[1..][i - 1] == ts[i];
        }
      }
      if EscapesAmong(s, from, ts[1..]) {
        var i :| 0 <= i < |ts| - 1 && !InCheck(Scratch(s, from, ts[1..][i]));
        assert ts[1..][i] == ts[i + 1];
      }
    }
  }

  /** Some target of the piece on `from` leads to a scratch state that is not in check. */
  ghost predicate EscapesFrom(s: GameState, from: Position)
    requires OnBoard(from)
  {
    EscapesAmong(s, from, Targets(s, from))
  }

  ghost predicate HasEscape(s: GameState) {
    exists r, c :: 0 <= r < 8 && 0 <= c < 8
      && HoldsColor(s.board, Position(r, c), s.currentTurn) && EscapesFrom(s, Position(r, c))
  }

  /** No piece of the side to move on a square before (`row`, `col`), in row-major order,
      has an escape: what the shared scan has established when it reaches that square. */
  ghost predicate NoEscapeBefore(s: GameState, row: int, col: int) {
    forall r, c ::
      (0 <= r < 8 && 0 <= c < 8 && (r < row || (r == row && c < col))
       && HoldsColor(s.board, Position(r, c), s.currentTurn)) ==> !EscapesFrom(s, Position(r, c))
  }

  /** Passing over one square that yields no escape extends what the scan has established. */
  lemma NoEscapeStep(s: GameState, row: int, col: int)
    requires 0 <= row < 8 && 0 <= col < 8 && NoEscapeBefore(s, row, col)
    requires HoldsColor(s.board, Position(row, col), s.currentTurn) ==> !EscapesFrom(s, Position(row, col))
    ensures NoEscapeBefore(s, row, col + 1)
  {
  }

  /** The end of a row is the start of the next. */
  lemma NoEscapeRow(s: GameState, row: int)
    requires NoEscapeBefore(s, row, 8)
    ensures NoEscapeBefore(s, row + 1, 0)
  {
  }

  /** A scan over the whole board that found no escape means there is none; one escape
      found means there is one. */
  lemma NoEscapeAll(s: GameState)
    ensures NoEscapeBefore(s, 8, 0) ==> !HasEscape(s)
    ensures forall p :: OnBoard(p) && HoldsColor(s.board, p, s.currentTurn) && EscapesFrom(s, p) ==> HasEscape(s)
  {
    forall p | OnBoard(p) && HoldsColor(s.board, p, s.currentTurn) && EscapesFrom(s, p)
      ensures HasEscape(s)
    {
      assert p == Position(p.row, p.col);
    }
  }

  /** `isCheckmate`. */
  ghost predicate Checkmated(s: GameState) {
    InCheck(s) && !HasEscape(s)
  }

  /** `isStalemate`. */
  ghost predicate Stalemated(s: GameState) {
    !InCheck(s) && !HasEscape(s)
  }

  /** Checkmate needs check, stalemate excludes it, so the two never hold together; and
      one of them holds when no piece of the side to move has a target. */
  lemma TerminalExclusive(s: GameState)
    ensures Checkmated(s) ==> InCheck(s)
    ensures Stalemated(s) ==> !InCheck(s)
    ensures !(Checkmated(s) && Stalemated(s))
    ensures (forall p :: HoldsColor(s.board, p, s.currentTurn) ==> Targets(s, p) == [])
      ==> (Checkmated(s) || Stalemated(s))
  {
  }

  /** Move generation depends only on the board and the side to move. */
  lemma TargetsFrame(s: GameState, t: GameState, p: Position)
    requires s.board == t.board && s.currentTurn == t.currentTurn && OnBoard(p)
    ensures Targets(s, p) == Targets(t, p)
  {
    assert InCheck(s) == InCheck(t);
  }

  lemma EscapesFrame(s: GameState, t: GameState, p: Position)
    requires s.board == t.board && s.currentTurn == t.currentTurn && OnBoard(p)
    ensures EscapesFrom(s, p) == EscapesFrom(t, p)
  {
    TargetsFrame(s, t, p);
    var ts := Targets(s, p);
    EscapesAmongMeaning(s, p, ts);
    EscapesAmongMeaning(t, p, ts);
    forall i | 0 <= i < |ts|
      ensures InCheck(Scratch(s, p, ts[i])) == InCheck(Scratch(t, p, ts[i]))
    {
      var a, b := Scratch(s, p, ts[i]), Scratch(t, p, ts[i]);
      assert a.board == b.board && a.currentTurn == b.currentTurn;
    }
  }

  /** The status predicates depend only on the board and the side to move. */
  lemma TerminalFrame(s: GameState, t: GameState)
    requires s.board == t.board && s.currentTurn == t.currentTurn
    ensures InCheck(s) == InCheck(t)
    ensures Checkmated(s) == Checkmated(t) && Stalemated(s) == Stalemated(t)
  {
    forall p | OnBoard(p) ensures EscapesFrom(s, p) == EscapesFrom(t, p) {
      EscapesFrame(s, t, p);
    }
    assert HasEscape(s) == HasEscape(t);
  }
}
