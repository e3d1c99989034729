/** King steps, castling and the full per-square move generator `calculateValidMoves`. */
module KingRules {
  import opened ChessTypes
  import opened Squares
  import opened Movement
  import opened Attacks

  /** The eight neighbours in the order of the nested offset loops (row offset outer). */
  const KingOffsets: seq<(int, int)> :=
    [(-1, -1), (-1, 0), (-1, 1), (0, -1), (0, 1), (1, -1), (1, 0), (1, 1)]

  predicate IsKingAt(b: Board, pos: Position) {
    OnBoard(pos) && At(b, pos).Some? && At(b, pos).value.kind == King
  }

  function KingStepTargets(b: Board, pos: Position): seq<Position>
    requires IsKingAt(b, pos)
  {
    StepTargets(b, pos, At(b, pos).value.color, KingOffsets)
  }

  /** Columns strictly between the king's column and the rook's column hold nothing. */
  ghost predicate PathClear(b: Board, pos: Position, rookCol: int)
    requires OnBoard(pos)
  {
    forall c :: 0 <= c < 8 && (pos.col < c < rookCol || rookCol < c < pos.col) ==> b[pos.row][c].None?
  }

  /** The columns the king starts on and crosses, through column 6 (kingside) or 2 (queenside). */
  predicate OnKingPath(c: int, kingCol: int, kingside: bool) {
    if kingside then kingCol <= c <= 6 else 2 <= c <= kingCol
  }

  ghost predicate PathSafe(b: Board, pos: Position, kingside: bool, color: PieceColor)
    requires OnBoard(pos)
  {
    forall c :: OnKingPath(c, pos.col, kingside) ==> !Attacked(b, Position(pos.row, c), color)
  }

  /** No square of row `row` from column `lo` up to, not including, `hi` is attacked. */
  ghost predicate SafeSpan(b: Board, row: int, lo: int, hi: int, color: PieceColor) {
    forall c :: lo <= c < hi ==> !Attacked(b, Position(row, c), color)
  }

  /** The king's path is the span from its column through column 6, or from column 2
      through its column. */
  lemma PathSafeSpan(b: Board, pos: Position, kingside: bool, color: PieceColor)
    requires OnBoard(pos)
    ensures kingside ==> (PathSafe(b, pos, kingside, color) <==> SafeSpan(b, pos.row, pos.col, 7, color))
    ensures !kingside ==> (PathSafe(b, pos, kingside, color) <==> SafeSpan(b, pos.row, 2, pos.col + 1, color))
  {
  }

  /** A span grows by one safe square at either end, and an attacked square inside it
      spoils it. */
  lemma SafeSpanStep(b: Board, row: int, lo: int, hi: int, color: PieceColor)
    requires SafeSpan(b, row, lo, hi, color)
    ensures !Attacked(b, Position(row, hi), color) ==> SafeSpan(b, row, lo, hi + 1, color)
    ensures !Attacked(b, Position(row, lo - 1), color) ==> SafeSpan(b, row, lo - 1, hi, color)
  {
  }

  /** `canCastle`: the four rules, in the source's order. Note that the check test is about
      the side to move, whatever the colour of the king on `pos`. */
  ghost predicate CastleAllowed(s: GameState, pos: Position, kingside: bool)
    requires IsKingAt(s.board, pos)
  {
    var king := At(s.board, pos).value;
    var rookCol := if kingside then 7 else 0;
    var rook := s.board[pos.row][rookCol];
    && rook.Some? && rook.value.kind == Rook && !rook.value.hasMoved
    && rook.value.color == king.color && !king.hasMoved
    && !InCheck(s)
    && PathClear(s.board, pos, rookCol)
    && PathSafe(s.board, pos, kingside, king.color)
  }

  ghost function CastleTargets(s: GameState, pos: Position): seq<Position>
    requires IsKingAt(s.board, pos)
  {
    if !At(s.board, pos).value.hasMoved then
      (if CastleAllowed(s, pos, true) then [Position(pos.row, pos.col + 2)] else [])
      + (if CastleAllowed(s, pos, false) then [Position(pos.row, pos.col - 2)] else [])
    else []
  }

  ghost function KingTargets(s: GameState, pos: Position): seq<Position>
    requires IsKingAt(s.board, pos)
  {
    KingStepTargets(s.board, pos) + CastleTargets(s, pos)
  }

  /** A castling jump: two columns sideways on the king's own row. */
  predicate IsCastleJump(pos: Position, t: Position) {
    t.row == pos.row && (t.col == pos.col + 2 || t.col == pos.col - 2)
  }

  /** `calculateValidMoves`: nothing for an empty square; otherwise the targets of the
      piece standing there. Every target is on a row of the board; it is on the board and
      free of the mover's colour, except that a castling jump of a king standing off its
      home column may leave the board or land on its own rook. */
  ghost function Targets(s: GameState, pos: Position): (r: seq<Position>)
    requires OnBoard(pos)
    ensures At(s.board, pos).None? ==> r == []
    ensures forall t :: t in r ==> 0 <= t.row < 8
    ensures forall t :: t in r ==>
      CanLand(s.board, t, At(s.board, pos).value.color)
      || (At(s.board, pos).value.kind == King && IsCastleJump(pos, t))
    ensures |r| <= 56
  {
    match At(s.board, pos)
    case None => []
    case Some(p) =>
      if p.kind == King then KingTargets(s, pos) else PieceTargets(s.board, pos)
  }

  /** No single king step is a castling jump. */
  lemma KingStepsAreNotJumps(b: Board, pos: Position)
    requires IsKingAt(b, pos)
    ensures forall t :: t in KingStepTargets(b, pos) ==> !IsCastleJump(pos, t) && CanLand(b, t, At(b, pos).value.color)
  {
    forall t | t in KingStepTargets(b, pos)
      ensures !IsCastleJump(pos, t)
    {
      var k :| 0 <= k < |KingOffsets| && t == Offset(pos, KingOffsets[k]);
    }
  }

  /** A king is offered the square two columns towards the kingside (queenside) rook exactly
      when `canCastle` holds for that side. */
  lemma CastleTargetIff(s: GameState, pos: Position, kingside: bool)
    requires IsKingAt(s.board, pos)
    ensures Position(pos.row, if kingside then pos.col + 2 else pos.col - 2) in Targets(s, pos)
      <==> CastleAllowed(s, pos, kingside)
  {
    KingStepsAreNotJumps(s.board, pos);
  }

  /** When every unmoved king stands on column 4, as in the starting position, all targets
      of every square are on the board and free of the mover's own colour. */
  lemma TargetsLandAtHome(s: GameState, pos: Position)
    requires OnBoard(pos) && At(s.board, pos).Some? && HomeKings(s.board)
    ensures forall t :: t in Targets(s, pos) ==> CanLand(s.board, t, At(s.board, pos).value.color)
  {
    if At(s.board, pos).value.kind == King {
      KingStepsAreNotJumps(s.board, pos);
      var king := At(s.board, pos).value;
      forall t | t in CastleTargets(s, pos)
        ensures CanLand(s.board, t, king.color)
      {
        assert pos.col == 4;
        if t.col == pos.col + 2 {
          assert CastleAllowed(s, pos, true);
          assert s.board[pos.row][6].None?;
        } else {
          assert CastleAllowed(s, pos, false);
          assert s.board[pos.row][2].None?;
        }
      }
    }
  }
}
