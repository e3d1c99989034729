/** Squares of the board, reading and writing cells, and the starting position. */
module Squares {
  import opened ChessTypes

  predicate IsValidPosition(row: int, col: int) {
    0 <= row < 8 && 0 <= col < 8
  }

  predicate OnBoard(p: Position) {
    IsValidPosition(p.row, p.col)
  }

  function At(b: Board, p: Position): Square
    requires OnBoard(p)
  {
    b[p.row][p.col]
  }

  /** A piece of colour `c` stands on `p`. */
  predicate HoldsColor(b: Board, p: Position, c: PieceColor) {
    OnBoard(p) && At(b, p).Some? && At(b, p).value.color == c
  }

  predicate IsKingOf(b: Board, p: Position, c: PieceColor)
    requires OnBoard(p)
  {
    At(b, p).Some? && At(b, p).value.kind == King && At(b, p).value.color == c
  }

  /** Row-major order of squares, the order in which every board scan visits them. */
  predicate Before(p: Position, q: Position) {
    p.row < q.row || (p.row == q.row && p.col < q.col)
  }

  /** The write `board[p.row][p.col] = x` of the source. The row must exist; a write to a
      column outside 0..7 lands outside the 8x8 grid, where no later read looks, so it
      leaves the board unchanged. */
  function Put(b: Board, p: Position, x: Square): (r: Board)
    requires 0 <= p.row < 8
    ensures forall q :: OnBoard(q) ==> At(r, q) == (if q == p then x else At(b, q))
  {
    if OnBoard(p) then b[p.row := b[p.row][p.col := x]] else b
  }

  const BackRank: seq<PieceType> := [Rook, Knight, Bishop, Queen, King, Bishop, Knight, Rook]

  /** Black on rows 0 and 1, white on rows 6 and 7, rows 2 to 5 empty, nothing moved. */
  ghost predicate IsStartingPosition(b: Board) {
    && (forall c :: 0 <= c < 8 ==> b[0][c] == Some(Piece(BackRank[c], Black, false)))
    && (forall c :: 0 <= c < 8 ==> b[1][c] == Some(Piece(Pawn, Black, false)))
    && (forall r, c :: 2 <= r < 6 && 0 <= c < 8 ==> b[r][c] == None)
    && (forall c :: 0 <= c < 8 ==> b[6][c] == Some(Piece(Pawn, White, false)))
    && (forall c :: 0 <= c < 8 ==> b[7][c] == Some(Piece(BackRank[c], White, false)))
  }

  /** Every king that has not moved stands on column 4, where the starting position puts it. */
  ghost predicate HomeKings(b: Board) {
    forall p :: OnBoard(p) && At(b, p).Some? && At(b, p).value.kind == King && !At(b, p).value.hasMoved
      ==> p.col == 4
  }

  method InitializeBoard() returns (b: Board)
    ensures IsStartingPosition(b)
  {
    b := seq(8, _ => seq(8, _ => None));
    for col := 0 to 8
      invariant forall r, c :: 0 <= r < 8 && 0 <= c < 8 && !((r == 1 || r == 6) && c < col) ==> b[r][c] == None
      invariant forall c :: 0 <= c < col ==> b[1][c] == Some(Piece(Pawn, Black, false))
      invariant forall c :: 0 <= c < col ==> b[6][c] == Some(Piece(Pawn, White, false))
    {
      b := b[1 := b[1][col := Some(Piece(Pawn, Black, false))]];
      b := b[6 := b[6][col := Some(Piece(Pawn, White, false))]];
    }
    for col := 0 to 8
      invariant forall r, c :: 2 <= r < 6 && 0 <= c < 8 ==> b[r][c] == None
      invariant forall c :: 0 <= c < 8 ==> b[1][c] == Some(Piece(Pawn, Black, false))
      invariant forall c :: 0 <= c < 8 ==> b[6][c] == Some(Piece(Pawn, White, false))
      invariant forall c :: 0 <= c < col ==> b[0][c] == Some(Piece(BackRank[c], Black, false))
      invariant forall c :: 0 <= c < col ==> b[7][c] == Some(Piece(BackRank[c], White, false))
    {
      b := b[0 := b[0][col := Some(Piece(BackRank[col], Black, false))]];
      b := b[7 := b[7][col := Some(Piece(BackRank[col], White, false))]];
    }
  }

  /** In the starting position every piece is unmoved and the two kings stand on e1 and e8
      (row 7 and row 0, column 4). */
  lemma StartingPositionFacts(b: Board)
    requires IsStartingPosition(b)
    ensures forall p :: OnBoard(p) && At(b, p).Some? ==> !At(b, p).value.hasMoved
    ensures forall p :: OnBoard(p) && At(b, p).Some? && At(b, p).value.kind == King ==>
      p == Position(0, 4) || p == Position(7, 4)
    ensures At(b, Position(0, 4)) == Some(Piece(King, Black, false))
    ensures At(b, Position(7, 4)) == Some(Piece(King, White, false))
    ensures HomeKings(b)
  {
    forall p | OnBoard(p) && At(b, p).Some?
      ensures !At(b, p).value.hasMoved
      ensures At(b, p).value.kind == King ==> p == Position(0, 4) || p == Position(7, 4)
    {
      if p.row == 0 || p.row == 7 {
        assert At(b, p).value.kind == BackRank[p.col];
      }
    }
  }
}
