/** The material balance of `evaluatePosition`: white piece values minus black piece values,
    summed square by square in row-major order. */
module MaterialBalance {
  import opened ChessTypes
  import opened Squares

  /** The contribution of one square: the piece's value, negated for black. */
  function Signed(sq: Square): int {
    match sq
    case None => 0
    case Some(p) => if p.color == White then PieceValue(p.kind) else 0 - PieceValue(p.kind) as int
  }

  /** The sum over the first `n` squares of a row. */
  function RowMaterial(row: seq<Square>, n: nat): (r: int)
    requires n <= |row|
    ensures -9 * n <= r <= 9 * n
  {
    if n == 0 then 0 else RowMaterial(row, n - 1) + Signed(row[n - 1])
  }

  /** The sum over the first `n` rows. */
  function MaterialRows(b: Board, n: nat): (r: int)
    requires n <= 8
    ensures -72 * n <= r <= 72 * n
  {
    if n == 0 then 0 else MaterialRows(b, n - 1) + RowMaterial(b[n - 1], 8)
  }

  /** `evaluatePosition`: the balance lies between -576 and 576 (sixty-four queens). */
  function Material(b: Board): (r: int)
    ensures -576 <= r <= 576
  {
    MaterialRows(b, 8)
  }

  lemma {:induction false} RowMaterialUpdate(row: seq<Square>, c: nat, x: Square, n: nat)
    requires c < |row| && n <= |row|
    ensures RowMaterial(row[c := x], n)
      == RowMaterial(row, n) + (if c < n then Signed(x) - Signed(row[c]) else 0)
  {
    if n > 0 {
      RowMaterialUpdate(row, c, x, n - 1);
    }
  }

  lemma {:induction false} MaterialRowsUpdate(b: Board, p: Position, x: Square, n: nat)
    requires OnBoard(p) && n <= 8
    ensures MaterialRows(Put(b, p, x), n)
      == MaterialRows(b, n) + (if p.row < n then Signed(x) - Signed(At(b, p)) else 0)
  {
    if n > 0 {
      MaterialRowsUpdate(b, p, x, n - 1);
      if p.row == n - 1 {
        RowMaterialUpdate(b[p.row], p.col, x, 8);
      }
    }
  }

  /** Writing `x` on a square changes the balance by exactly the difference of the two
      squares' contributions. Hence placing or removing a king never changes it, and
      clearing a square holding an opposing piece moves the balance in the capturer's favour
      by that piece's value. */
  lemma MaterialPut(b: Board, p: Position, x: Square)
    requires 0 <= p.row < 8
    ensures OnBoard(p) ==> Material(Put(b, p, x)) == Material(b) - Signed(At(b, p)) + Signed(x)
    ensures !OnBoard(p) ==> Material(Put(b, p, x)) == Material(b)
    ensures OnBoard(p) && At(b, p).Some? && At(b, p).value.kind == King && x.None? ==>
      Material(Put(b, p, x)) == Material(b)
  {
    if OnBoard(p) {
      MaterialRowsUpdate(b, p, x, 8);
    }
  }

  /** Two rows whose squares contribute opposite amounts have opposite sums. */
  lemma {:induction false} MirrorRows(r1: seq<Square>, r2: seq<Square>, n: nat)
    requires n <= |r1| && n <= |r2|
    requires forall c :: 0 <= c < n ==> Signed(r1[c]) == -Signed(r2[c])
    ensures RowMaterial(r1, n) == -RowMaterial(r2, n)
  {
    if n > 0 {
      MirrorRows(r1, r2, n - 1);
    }
  }

  /** The starting position is balanced: each white row mirrors a black row and the middle
      rows are empty. */
  lemma StartingMaterial(b: Board)
    requires IsStartingPosition(b)
    ensures Material(b) == 0
  {
    MirrorRows(b[0], b[7], 8);
    MirrorRows(b[1], b[6], 8);
    MirrorRows(b[2], b[2], 8);
    MirrorRows(b[3], b[3], 8);
    MirrorRows(b[4], b[4], 8);
    MirrorRows(b[5], b[5], 8);
    assert MaterialRows(b, 2) == RowMaterial(b[0], 8) + RowMaterial(b[1], 8);
    assert MaterialRows(b, 4) == MaterialRows(b, 2);
    assert MaterialRows(b, 6) == MaterialRows(b, 2);
    assert MaterialRows(b, 8) == MaterialRows(b, 6) + RowMaterial(b[6], 8) + RowMaterial(b[7], 8);
  }
}
