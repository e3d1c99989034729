/** The rules engine as the source runs it: move generation, attack and check tests, the
    checkmate and stalemate scans, move application and the material count. The
    generators and the attack test call each other as in the source; each carries a rank
    that strictly drops along every call (the generator 1 on anything but a king, the
    attack by one square 2, the attack test 3, the check test and the castling path test
    4, castling 5, king moves 6 and the generator 7 on a king), which is why the recursion
    ends: the attack test never asks for a king's moves. */
module ChessLogic {
  import opened ChessTypes
  import opened Squares
  import opened Movement
  import opened Attacks
  import opened KingRules
  import opened Terminal
  import opened Transition
  import opened MaterialBalance
  import opened ChessLogicPieces

  // ---------------------------------------------------------------- move generation

  /** `calculateValidMoves`: nothing for an empty square, otherwise the generator of the
      piece standing there, starting from an empty list. */
  method CalculateValidMoves(pos: Position, s: GameState) returns (moves: seq<Position>)
    requires OnBoard(pos)
    ensures moves == Targets(s, pos)
    decreases if IsKingAt(s.board, pos) then 7 else 1
  {
    var piece := s.board[pos.row][pos.col];
    if piece.None? {
      return [];
    }
    moves := [];
    match piece.value.kind {
      case Pawn => moves := CalculatePawnMoves(pos, s, moves);
      case Knight => moves := CalculateKnightMoves(pos, s, moves);
      case Bishop => moves := CalculateBishopMoves(pos, s, moves);
      case Rook => moves := CalculateRookMoves(pos, s, moves);
      case Queen => moves := CalculateQueenMoves(pos, s, moves);
      case King => moves := CalculateKingMoves(pos, s, moves);
    }
  }

  /** The position in `KingOffsets` of the offset (rowOffset, colOffset), that is, the number
      of non-zero offsets the nested loops visit before it. */
  function KingIndex(rowOffset: int, colOffset: int): int {
    3 * (rowOffset + 1) + (colOffset + 1)
      - (if rowOffset > 0 || (rowOffset == 0 && colOffset > 0) then 1 else 0)
  }

  /** The neighbour targets for the first `n` offsets of `KingOffsets`, one offset at a time. */
  ghost function KingPrefix(b: Board, pos: Position, c: PieceColor, n: nat): seq<Position>
    requires n <= 8
  {
    if n == 0 then []
    else
      var t := Offset(pos, KingOffsets[n - 1]);
      KingPrefix(b, pos, c, n - 1) + (if CanLand(b, t, c) then [t] else [])
  }

  /** The offsets visited by the nested loops, in order, are those of `KingOffsets`. */
  lemma KingPrefixStep(b: Board, pos: Position, c: PieceColor, rowOffset: int, colOffset: int, k: nat)
    requires -1 <= rowOffset <= 1 && -1 <= colOffset <= 1 && (rowOffset, colOffset) != (0, 0)
    requires k == KingIndex(rowOffset, colOffset)
    ensures k < 8
    ensures var t := Position(pos.row + rowOffset, pos.col + colOffset);
      KingPrefix(b, pos, c, k + 1) == KingPrefix(b, pos, c, k) + (if CanLand(b, t, c) then [t] else [])
  {
    assert KingOffsets[k] == (rowOffset, colOffset);
  }

  /** All eight offsets give the king's neighbour targets. */
  lemma {:induction false} KingPrefixAll(b: Board, pos: Position, c: PieceColor, n: nat)
    requires n <= 8
    ensures KingPrefix(b, pos, c, n) == StepTargets(b, pos, c, KingOffsets[..n])
  {
    if n > 0 {
      KingPrefixAll(b, pos, c, n - 1);
      StepTargetsStep(b, pos, c, KingOffsets, n - 1);
    }
  }

  /** The body of the neighbour loops: the square at (rowOffset, colOffset) from the king is
      taken when it is on the board and empty or held by the other colour. */
  method KingNeighbour(pos: Position, s: GameState, rowOffset: int, colOffset: int, moves: seq<Position>)
    returns (out: seq<Position>)
    requires IsKingAt(s.board, pos)
    ensures var t := Position(pos.row + rowOffset, pos.col + colOffset);
      out == moves + (if CanLand(s.board, t, At(s.board, pos).value.color) then [t] else [])
  {
    var piece := At(s.board, pos).value;
    out := moves;
    var newRow := pos.row + rowOffset;
    var newCol := pos.col + colOffset;
    if IsValidPosition(newRow, newCol) {
      var targetPiece := s.board[newRow][newCol];
      if targetPiece.None? || targetPiece.value.color != piece.color {
        out := out + [Position(newRow, newCol)];
      }
    }
  }

  /** The neighbour loops of `calculateKingMoves` (row offset outer, column offset inner,
      skipping the zero offset): each neighbour on the board that is empty or held by the
      other colour. The ghost counter `k` is the number of offsets visited so far. */
  method KingStepMoves(pos: Position, s: GameState, moves: seq<Position>) returns (out: seq<Position>)
    requires IsKingAt(s.board, pos)
    ensures out == moves + KingStepTargets(s.board, pos)
  {
    var piece := At(s.board, pos).value;
    out := moves;
    ghost var k: nat := 0;
    for rowOffset := -1 to 2
      invariant k == KingIndex(rowOffset, -1) && k <= 8
      invariant out == moves + KingPrefix(s.board, pos, piece.color, k)
    {
      for colOffset := -1 to 2
        invariant k == KingIndex(rowOffset, colOffset) && k <= 8
        invariant out == moves + KingPrefix(s.board, pos, piece.color, k)
      {
        if rowOffset == 0 && colOffset == 0 {
          continue;
        }
        KingPrefixStep(s.board, pos, piece.color, rowOffset, colOffset, k);
        ghost var prev := out;
        out := KingNeighbour(pos, s, rowOffset, colOffset, out);
        ghost var t := Position(pos.row + rowOffset, pos.col + colOffset);
        AppendStep(moves, prev, KingPrefix(s.board, pos, piece.color, k),
                   if CanLand(s.board, t, piece.color) then [t] else [], out);
        k := k + 1;
      }
    }
    KingPrefixAll(s.board, pos, piece.color, 8);
    assert KingOffsets[..8] == KingOffsets;
  }

  /** `calculateKingMoves`: the neighbour steps, then kingside and queenside castling for an
      unmoved king. */
  method CalculateKingMoves(pos: Position, s: GameState, moves: seq<Position>) returns (out: seq<Position>)
    requires IsKingAt(s.board, pos)
    ensures out == moves + KingTargets(s, pos)
    decreases 6
  {
    var piece := At(s.board, pos).value;
    out := KingStepMoves(pos, s, moves);
    ghost var steps := out;
    if !piece.hasMoved {
      var kingside := CanCastle(pos, s, true);
      if kingside {
        out := out + [Position(pos.row, pos.col + 2)];
      }
      var queenside := CanCastle(pos, s, false);
      if queenside {
        out := out + [Position(pos.row, pos.col - 2)];
      }
    }
    AppendStep(moves, steps, KingStepTargets(s.board, pos), CastleTargets(s, pos), out);
  }

  /** `canCastle`: the rook on column 7 (kingside) or 0 (queenside) is an unmoved rook of
      the king's colour and the king is unmoved; the side to move is not in check; the
      squares between king and rook are empty; and no square from the king's column
      through column 6 (or 2) is attacked. Each rule is consulted only when the earlier ones
      hold. */
  method CanCastle(pos: Position, s: GameState, isKingside: bool) returns (r: bool)
    requires IsKingAt(s.board, pos)
    ensures r == CastleAllowed(s, pos, isKingside)
    decreases 5
  {
    var piece := At(s.board, pos).value;
    var rookCol := if isKingside then 7 else 0;
    var rook := s.board[pos.row][rookCol];
    if rook.None? || rook.value.kind != Rook || rook.value.hasMoved
      || rook.value.color != piece.color || piece.hasMoved
    {
      return false;
    }
    var inCheck := IsKingInCheck(s);
    if inCheck {
      return false;
    }
    var clear := PathIsClear(pos, s, isKingside);
    if !clear {
      return false;
    }
    r := PathIsSafe(pos, s, isKingside, piece.color);
  }

  /** Rule 3 of `canCastle`, for a king that is not on the rook's column: walk from the
      king towards the rook and stop at the first occupied square. */
  method PathIsClear(pos: Position, s: GameState, isKingside: bool) returns (r: bool)
    requires OnBoard(pos) && pos.col != (if isKingside then 7 else 0)
    ensures r == PathClear(s.board, pos, if isKingside then 7 else 0)
  {
    var row, col := pos.row, pos.col;
    var rookCol := if isKingside then 7 else 0;
    var direction := if isKingside then 1 else -1;
    var c := col + direction;
    while c != rookCol
      invariant isKingside ==> col < c <= 7
      invariant !isKingside ==> 0 <= c < col
      invariant forall c' :: 0 <= c' < 8 && (col < c' < c || c < c' < col) ==> s.board[row][c'].None?
      decreases if isKingside then 7 - c else c
    {
      if s.board[row][c].Some? {
        return false;
      }
      c := c + direction;
    }
    return true;
  }

  /** Rule 4 of `canCastle`: walk from the king's column through column 6 (or 2) and stop
      at the first square a piece not of colour `color` attacks. */
  method PathIsSafe(pos: Position, s: GameState, isKingside: bool, color: PieceColor) returns (r: bool)
    requires OnBoard(pos) && pos.col != (if isKingside then 7 else 0)
    ensures r == PathSafe(s.board, pos, isKingside, color)
    decreases 4
  {
    var row, col := pos.row, pos.col;
    var direction := if isKingside then 1 else -1;
    var endCol := if isKingside then 6 else 2;
    PathSafeSpan(s.board, pos, isKingside, color);
    var c := col;
    while c != endCol + direction
      invariant isKingside ==> col <= c <= 7 && SafeSpan(s.board, row, col, c, color)
      invariant !isKingside ==> 1 <= c <= col && SafeSpan(s.board, row, c + 1, col + 1, color)
      decreases if isKingside then 7 - c else c
    {
      var attacked := IsSquareUnderAttack(Position(row, c), s, color);
      if attacked {
        return false;
      }
      SafeSpanStep(s.board, row, if isKingside then col else c + 1, if isKingside then c else col + 1, color);
      c := c + direction;
    }
    return true;
  }

  // ---------------------------------------------------------------- attack and check

  /** The nested offset loops of `isSquareUnderAttack` for a king on `from`: whether some
      non-zero offset of at most one in each direction leads to `target`. */
  method KingReaches(from: Position, target: Position) returns (r: bool)
    ensures r == Adjacent(from, target)
  {
    var dr, dc := target.row - from.row, target.col - from.col;
    for rowOffset := -1 to 2
      invariant Adjacent(from, target) ==> rowOffset <= dr
    {
      for colOffset := -1 to 2
        invariant Adjacent(from, target) ==> rowOffset < dr || (rowOffset == dr && colOffset <= dc)
      {
        if rowOffset == 0 && colOffset == 0 {
          continue;
        }
        var newRow := from.row + rowOffset;
        var newCol := from.col + colOffset;
        if newRow == target.row && newCol == target.col {
          return true;
        }
      }
    }
    return false;
  }

  /** The test `isSquareUnderAttack` applies to one square: a piece not of
      `defendingColor` stands there and reaches `position`, a king by adjacency and any
      other piece through its generated moves. */
  method AttacksFromSquare(from: Position, s: GameState, position: Position, defendingColor: PieceColor)
    returns (r: bool)
    requires OnBoard(from)
    ensures r == AttacksFrom(s.board, from, position, defendingColor)
    decreases 2
  {
    var piece := s.board[from.row][from.col];
    if piece.None? || piece.value.color == defendingColor {
      return false;
    }
    if piece.value.kind == King {
      r := KingReaches(from, position);
    } else {
      var moves := CalculateValidMoves(from, s);
      r := position in moves;
    }
  }

  /** `isSquareUnderAttack`: a scan of the board, stopping at the first square from which
      a piece not of `defendingColor` reaches `position`. */
  method IsSquareUnderAttack(position: Position, s: GameState, defendingColor: PieceColor) returns (r: bool)
    ensures r == Attacked(s.board, position, defendingColor)
    decreases 3
  {
    for row := 0 to 8
      invariant forall r', c' ::
                  0 <= r' < row && 0 <= c' < 8
                  ==> !AttacksFrom(s.board, Position(r', c'), position, defendingColor)
    {
      for col := 0 to 8
        invariant forall r', c' ::
                    ((0 <= r' < row && 0 <= c' < 8) || (r' == row && 0 <= c' < col))
                    ==> !AttacksFrom(s.board, Position(r', c'), position, defendingColor)
      {
        var attacks := AttacksFromSquare(Position(row, col), s, position, defendingColor);
        if attacks {
          return true;
        }
      }
    }
    return false;
  }

  /** `isKingInCheck`: find the first king of the side to move in row-major order (leaving
      both loops at once) and ask whether its square is attacked; no king, no check. */
  method IsKingInCheck(s: GameState) returns (r: bool)
    ensures r == InCheck(s)
    decreases 4
  {
    var kingPosition: Option<Position> := None;
    var row := 0;
    while row < 8
      invariant 0 <= row <= 8 && kingPosition.None?
      invariant forall q :: OnBoard(q) && q.row < row ==> !IsKingOf(s.board, q, s.currentTurn)
    {
      var col := 0;
      while col < 8
        invariant 0 <= col <= 8 && kingPosition.None?
        invariant forall q ::
                    OnBoard(q) && (q.row < row || (q.row == row && q.col < col))
                    ==> !IsKingOf(s.board, q, s.currentTurn)
      {
        var piece := s.board[row][col];
        if piece.Some? && piece.value.kind == King && piece.value.color == s.currentTurn {
          kingPosition := Some(Position(row, col));
          break;
        }
        col := col + 1;
      }
      if kingPosition.Some? {
        break;
      }
      row := row + 1;
    }
    InCheckMeaning(s);
    if kingPosition.None? {
      return false;
    }
    assert IsFirstKing(s.board, kingPosition.value, s.currentTurn);
    r := IsSquareUnderAttack(kingPosition.value, s, s.currentTurn);
  }

  // ---------------------------------------------------------------- checkmate and stalemate

  /** The inner loop of the scan: the targets of the piece on `from`, in order, each tried
      on the scratch state until one is not in check. */
  method EscapeFrom(s: GameState, from: Position) returns (found: bool)
    requires OnBoard(from)
    ensures found == EscapesFrom(s, from)
  {
    var moves := CalculateValidMoves(from, s);
    for i := 0 to |moves|
      invariant EscapesAmong(s, from, moves[i..]) == EscapesAmong(s, from, moves)
    {
      var tempGameState := Scratch(s, from, moves[i]);
      var inCheck := IsKingInCheck(tempGameState);
      assert moves[i..][1..] == moves[i + 1..];
      if !inCheck {
        return true;
      }
    }
    return false;
  }

  /** The scan shared by `isCheckmate` and `isStalemate`: every target of every piece of the
      side to move is tried on the scratch state, and the scan stops at the first one
      whose scratch state is not in check. */
  method FindEscape(s: GameState) returns (found: bool)
    ensures found == HasEscape(s)
  {
    NoEscapeAll(s);
    for row := 0 to 8
      invariant NoEscapeBefore(s, row, 0)
    {
      for col := 0 to 8
        invariant NoEscapeBefore(s, row, col)
      {
        var piece := s.board[row][col];
        if piece.Some? && piece.value.color == s.currentTurn {
          var escapes := EscapeFrom(s, Position(row, col));
          if escapes {
            return true;
          }
        }
        NoEscapeStep(s, row, col);
      }
      NoEscapeRow(s, row);
    }
    return false;
  }

  /** `isCheckmate`: in check and no target of any piece leads out of it. */
  method IsCheckmate(s: GameState) returns (r: bool)
    ensures r == Checkmated(s)
  {
    var inCheck := IsKingInCheck(s);
    if !inCheck {
      return false;
    }
    var escape := FindEscape(s);
    return !escape;
  }

  /** `isStalemate`: not in check and no target of any piece leads to a scratch state out
      of check. */
  method IsStalemate(s: GameState) returns (r: bool)
    ensures r == Stalemated(s)
  {
    var inCheck := IsKingInCheck(s);
    if inCheck {
      return false;
    }
    var escape := FindEscape(s);
    return !escape;
  }

  // ---------------------------------------------------------------- move application

  /** The board writes of `makeMove`, on a copy of the board. */
  method MoveOnBoard(b: Board, from: Position, to: Position) returns (newBoard: Board)
    requires MoveOk(b, from, to)
    ensures newBoard == MovedBoard(b, from, to)
  {
    newBoard := b;
    var piece := newBoard[from.row][from.col].value;
    if piece.kind == King && Abs(to.col - from.col) == 2 {
      var isKingside := to.col > from.col;
      var rookFromCol := if isKingside then 7 else 0;
      var rookToCol := if isKingside then to.col - 1 else to.col + 1;
      newBoard := Put(newBoard, Position(to.row, rookToCol), newBoard[to.row][rookFromCol]);
      newBoard := Put(newBoard, Position(to.row, rookFromCol), None);
    }
    if piece.kind == Pawn && (to.row == 0 || to.row == 7) {
      newBoard := Put(newBoard, to, Some(Piece(Queen, piece.color, true)));
    } else {
      newBoard := Put(newBoard, to, Some(piece.(hasMoved := true)));
    }
    newBoard := Put(newBoard, from, None);
  }

  /** `makeMove`: the writes on a copy of the board (the rook first when a king moves two
      columns, then the moved or promoted piece, then the emptied source square), the side
      to move flipped, the selection cleared and the three status flags recomputed. */
  method MakeMove(s: GameState, from: Position, to: Position) returns (r: GameState)
    requires MoveOk(s.board, from, to)
    ensures r == Applied(s, from, to)
  {
    var newBoard := MoveOnBoard(s.board, from, to);
    var newGameState := s.(board := newBoard,
                           currentTurn := if s.currentTurn == White then Black else White,
                           selectedPiece := None, validMoves := []);
    var isCheck := IsKingInCheck(newGameState);
    var checkmateStatus := false;
    if isCheck {
      checkmateStatus := IsCheckmate(newGameState);
    }
    var stalemateStatus := false;
    if !isCheck {
      stalemateStatus := IsStalemate(newGameState);
    }
    r := newGameState.(isCheck := isCheck, isCheckmate := checkmateStatus, isStalemate := stalemateStatus);
  }

  // ---------------------------------------------------------------- evaluation

  /** `evaluatePosition`: the material balance, accumulated square by square. */
  method EvaluatePosition(s: GameState) returns (score: int)
    ensures score == Material(s.board)
  {
    score := 0;
    for row := 0 to 8
      invariant score == MaterialRows(s.board, row)
    {
      for col := 0 to 8
        invariant score == MaterialRows(s.board, row) + RowMaterial(s.board[row], col)
      {
        var piece := s.board[row][col];
        if piece.Some? {
          var value: int := PieceValue(piece.value.kind);
          score := score + if piece.value.color == White then value else -value;
        }
      }
    }
  }
}
