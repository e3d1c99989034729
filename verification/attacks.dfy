/** Attack and check detection. A king attacks by adjacency; every other piece attacks
    the targets its move generator offers, pawn pushes included. */
module Attacks {
  import opened ChessTypes
  import opened Squares
  import opened Movement

  predicate Adjacent(p: Position, q: Position) {
    p != q && -1 <= q.row - p.row <= 1 && -1 <= q.col - p.col <= 1
  }

  /** The piece on `from` (if any) belongs to the side opposing `defender` and reaches `target`. */
  predicate AttacksFrom(b: Board, from: Position, target: Position, defender: PieceColor)
    requires OnBoard(from)
  {
    && At(b, from).Some?
    && At(b, from).value.color != defender
    && if At(b, from).value.kind == King then Adjacent(from, target)
       else target in PieceTargets(b, from)
  }

  /** `isSquareUnderAttack`: some piece of the side opposing `defender` attacks `target`. */
  predicate Attacked(b: Board, target: Position, defender: PieceColor) {
    exists r, c :: 0 <= r < 8 && 0 <= c < 8 && AttacksFrom(b, Position(r, c), target, defender)
  }

  /** The first king of colour `c` in row `row`, looking at columns `col` to 7. */
  function KingInRow(b: Board, c: PieceColor, row: int, col: nat): (r: Option<Position>)
    requires 0 <= row < 8 && col <= 8
    decreases 8 - col
    ensures r.Some? ==> r.value.row == row && col <= r.value.col < 8 && IsKingOf(b, r.value, c)
    ensures r.Some? ==> forall k :: col <= k < r.value.col ==> !IsKingOf(b, Position(row, k), c)
    ensures r.None? ==> forall k :: col <= k < 8 ==> !IsKingOf(b, Position(row, k), c)
  {
    if col == 8 then None
    else if IsKingOf(b, Position(row, col), c) then Some(Position(row, col))
    else KingInRow(b, c, row, col + 1)
  }

  /** The first king of colour `c` in rows `row` to 7, in row-major order. */
  function KingFrom(b: Board, c: PieceColor, row: nat): (r: Option<Position>)
    requires row <= 8
    decreases 8 - row
    ensures r.Some? ==> OnBoard(r.value) && row <= r.value.row && IsKingOf(b, r.value, c)
    ensures r.Some? ==> forall q :: OnBoard(q) && row <= q.row && Before(q, r.value) ==> !IsKingOf(b, q, c)
    ensures r.None? ==> forall q :: OnBoard(q) && row <= q.row ==> !IsKingOf(b, q, c)
  {
    if row == 8 then None
    else
      var inRow := KingInRow(b, c, row, 0);
      if inRow.Some? then inRow else KingFrom(b, c, row + 1)
  }

  /** `k` holds a king of colour `c` and no earlier square in row-major order does. */
  ghost predicate IsFirstKing(b: Board, k: Position, c: PieceColor) {
    OnBoard(k) && IsKingOf(b, k, c) && forall q :: OnBoard(q) && Before(q, k) ==> !IsKingOf(b, q, c)
  }

  /** Where the scan of `isKingInCheck` finds the king of colour `c`: the first one in
      row-major order, or none when that side has no king. */
  function KingSquare(b: Board, c: PieceColor): (r: Option<Position>)
    ensures r.Some? ==> IsFirstKing(b, r.value, c)
    ensures r.None? <==> forall q :: OnBoard(q) ==> !IsKingOf(b, q, c)
  {
    KingFrom(b, c, 0)
  }

  /** `isKingInCheck`: the side to move has a king and its square is attacked. */
  predicate InCheck(s: GameState) {
    match KingSquare(s.board, s.currentTurn)
    case None => false
    case Some(k) => Attacked(s.board, k, s.currentTurn)
  }

  /** A side with no king is never in check; otherwise being in check means exactly that
      the first such king in row-major order is attacked. */
  lemma InCheckMeaning(s: GameState)
    ensures (forall q :: OnBoard(q) ==> !IsKingOf(s.board, q, s.currentTurn)) ==> !InCheck(s)
    ensures forall k :: IsFirstKing(s.board, k, s.currentTurn) ==>
      (InCheck(s) <==> Attacked(s.board, k, s.currentTurn))
  {
    forall k | IsFirstKing(s.board, k, s.currentTurn)
      ensures KingSquare(s.board, s.currentTurn) == Some(k)
    {
      var f := KingSquare(s.board, s.currentTurn);
      assert f.Some?;
    }
  }
}
