/** The board model of the chess engine: piece kinds, colours, pieces, squares,
    the game state record and the material table. */
module ChessTypes {

  datatype Option<+T> = None | Some(value: T)

  datatype PieceType = Pawn | Knight | Bishop | Rook | Queen | King

  datatype PieceColor = White | Black

  /** Carried along in the game state; only the presentation layer reads it. */
  datatype BoardTheme = Classic | Brown | Green | Navy

  /** `hasMoved` is read by castling and set by move application. */
  datatype Piece = Piece(kind: PieceType, color: PieceColor, hasMoved: bool)

  /** Coordinates are plain integers so that off-board targets can be represented. */
  datatype Position = Position(row: int, col: int)

  /** The content of one square: a piece or nothing (`null` in the source). */
  type Square = Option<Piece>

  predicate IsGrid(cells: seq<seq<Square>>) {
    |cells| == 8 && forall r :: 0 <= r < 8 ==> |cells[r]| == 8
  }

  /** An 8x8 grid, indexed by row and then by column. */
  type Board = cells: seq<seq<Square>> | IsGrid(cells)
    witness seq(8, _ => seq(8, _ => None))

  datatype GameState = GameState(
    board: Board,
    currentTurn: PieceColor,
    selectedPiece: Option<Position>,
    validMoves: seq<Position>,
    isCheck: bool,
    isCheckmate: bool,
    isStalemate: bool,
    computerLevel: int,
    playerColor: PieceColor,
    boardTheme: BoardTheme)

  function Opponent(c: PieceColor): (o: PieceColor)
    ensures o != c
  {
    if c == White then Black else White
  }

  /** The material table. Values are non-negative, at most 9, and only the king is worth 0. */
  function PieceValue(t: PieceType): (v: nat)
    ensures v == 0 <==> t == King
    ensures v <= 9
  {
    match t
    case Pawn => 1
    case Knight => 3
    case Bishop => 3
    case Rook => 5
    case Queen => 9
    case King => 0
  }
}
