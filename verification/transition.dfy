/** Move application (`makeMove`): a new board, the side to move flipped and the status
    flags recomputed for the new side to move. The move itself is not checked. */
module Transition {
  import opened ChessTypes
  import opened Squares
  import opened Attacks
  import opened Terminal

  function Abs(x: int): nat {
    if x < 0 then -x else x
  }

  /** What `makeMove` demands of its arguments: a piece on `from` (dereferenced with `!`)
      and a target row that exists. A target column outside the board is tolerated: the
      write to it is never read again. */
  predicate MoveOk(b: Board, from: Position, to: Position) {
    OnBoard(from) && At(b, from).Some? && 0 <= to.row < 8
  }

  predicate IsCastling(b: Board, from: Position, to: Position)
    requires MoveOk(b, from, to)
  {
    At(b, from).value.kind == King && Abs(to.col - from.col) == 2
  }

  function RookFrom(from: Position, to: Position): Position {
    Position(to.row, if to.col > from.col then 7 else 0)
  }

  function RookTo(from: Position, to: Position): Position {
    Position(to.row, if to.col > from.col then to.col - 1 else to.col + 1)
  }

  /** A square one of the writes of `makeMove` touches. */
  predicate Written(b: Board, from: Position, to: Position, q: Position)
    requires MoveOk(b, from, to)
  {
    q == from || q == to || (IsCastling(b, from, to) && (q == RookFrom(from, to) || q == RookTo(from, to)))
  }

  /** What lands on `to`: a pawn reaching row 0 or 7 becomes a queen, and the piece is marked moved. */
  function Landed(p: Piece, to: Position): (r: Piece)
    ensures r.color == p.color && r.hasMoved
    ensures r.kind == p.kind || (p.kind == Pawn && r.kind == Queen)
    ensures p.kind == Pawn && (to.row == 0 || to.row == 7) ==> r.kind == Queen
  {
    if p.kind == Pawn && (to.row == 0 || to.row == 7) then Piece(Queen, p.color, true)
    else p.(hasMoved := true)
  }

  /** The board after the four writes of `makeMove`, in the source's order: rook to its new
      square, rook square cleared (both only for a two-column king move), piece to `to`,
      `from` cleared. */
  function MovedBoard(b: Board, from: Position, to: Position): Board
    requires MoveOk(b, from, to)
  {
    var piece := At(b, from).value;
    var b1 :=
      if IsCastling(b, from, to) then
        Put(Put(b, RookTo(from, to), At(b, RookFrom(from, to))), RookFrom(from, to), None)
      else b;
    Put(Put(b1, to, Some(Landed(piece, to))), from, None)
  }

  /** `makeMove`. */
  ghost function Applied(s: GameState, from: Position, to: Position): GameState
    requires MoveOk(s.board, from, to)
  {
    var next := s.(board := MovedBoard(s.board, from, to),
                   currentTurn := Opponent(s.currentTurn),
                   selectedPiece := None, validMoves := []);
    var check := InCheck(next);
    next.(isCheck := check,
          isCheckmate := check && Checkmated(next),
          isStalemate := !check && Stalemated(next))
  }

  /** The piece moves: `from` ends empty, `to` (when on the board) holds the moved piece
      marked as moved, promoted to a queen of the same colour when it is a pawn reaching
      row 0 or 7. */
  lemma MovedPiece(b: Board, from: Position, to: Position)
    requires MoveOk(b, from, to)
    ensures At(MovedBoard(b, from, to), from).None?
    ensures OnBoard(to) && to != from ==>
      At(MovedBoard(b, from, to), to) == Some(Landed(At(b, from).value, to))
    ensures OnBoard(to) && to != from ==> At(MovedBoard(b, from, to), to).value.hasMoved
    ensures OnBoard(to) && to != from ==>
      At(MovedBoard(b, from, to), to).value.color == At(b, from).value.color
    ensures OnBoard(to) && to != from && At(b, from).value.kind == Pawn && (to.row == 0 || to.row == 7) ==>
      At(MovedBoard(b, from, to), to).value.kind == Queen
  {
  }

  /** Castling moves the rook from column 7 to `to.col - 1`, or from column 0 to
      `to.col + 1`; a move that is not a two-column king move leaves every square other
      than `from` and `to` as it was. */
  lemma MovedRook(b: Board, from: Position, to: Position)
    requires MoveOk(b, from, to)
    ensures IsCastling(b, from, to) && OnBoard(RookTo(from, to)) && RookTo(from, to) != RookFrom(from, to) ==>
      At(MovedBoard(b, from, to), RookTo(from, to)) == At(b, RookFrom(from, to))
    ensures IsCastling(b, from, to) && RookFrom(from, to) != to ==>
      At(MovedBoard(b, from, to), RookFrom(from, to)).None?
    ensures forall q :: OnBoard(q) && !Written(b, from, to, q) ==> At(MovedBoard(b, from, to), q) == At(b, q)
  {
    if IsCastling(b, from, to) {
      assert RookTo(from, to) != to && RookTo(from, to) != from;
    }
  }

  /** The flags of the new state are exactly the status of the new position, and so
      checkmate is flagged only with check and stalemate only without it. The side to move
      flips, the selection is cleared and the carried settings are kept. */
  lemma AppliedState(s: GameState, from: Position, to: Position)
    requires MoveOk(s.board, from, to)
    ensures Applied(s, from, to).board == MovedBoard(s.board, from, to)
    ensures Applied(s, from, to).currentTurn == Opponent(s.currentTurn)
    ensures Applied(s, from, to).selectedPiece == None && Applied(s, from, to).validMoves == []
    ensures Applied(s, from, to).isCheck == InCheck(Applied(s, from, to))
    ensures Applied(s, from, to).isCheckmate == Checkmated(Applied(s, from, to))
    ensures Applied(s, from, to).isStalemate == Stalemated(Applied(s, from, to))
    ensures Applied(s, from, to).isCheckmate ==> Applied(s, from, to).isCheck
    ensures Applied(s, from, to).isStalemate ==> !Applied(s, from, to).isCheck
    ensures Applied(s, from, to).computerLevel == s.computerLevel
    ensures Applied(s, from, to).playerColor == s.playerColor
    ensures Applied(s, from, to).boardTheme == s.boardTheme
  {
    var next := s.(board := MovedBoard(s.board, from, to),
                   currentTurn := Opponent(s.currentTurn),
                   selectedPiece := None, validMoves := []);
    TerminalFrame(next, Applied(s, from, to));
    TerminalExclusive(next);
  }

  /** Kings that have not moved stay on column 4: the moved piece is marked as moved, and a
      relocated rook square never holds an unmoved king. */
  lemma AppliedKeepsHomeKings(b: Board, from: Position, to: Position)
    requires MoveOk(b, from, to) && HomeKings(b)
    ensures HomeKings(MovedBoard(b, from, to))
  {
    MovedRook(b, from, to);
  }
}
