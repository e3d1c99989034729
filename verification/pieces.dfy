/** The per-piece move generators of the rules engine, each appending its targets, in the
    source's order, to the list of moves it is given. */
module ChessLogicPieces {
  import opened ChessTypes
  import opened Squares
  import opened Movement

  /** `calculatePawnMoves`: the pushes, then the captures towards column - 1 and column + 1. */
  method CalculatePawnMoves(pos: Position, s: GameState, moves: seq<Position>) returns (out: seq<Position>)
    requires OnBoard(pos) && At(s.board, pos).Some?
    ensures out == moves + PawnTargets(s.board, pos)
  {
    var b := s.board;
    var piece := At(b, pos).value;
    var direction := if piece.color == White then -1 else 1;
    var startRow := if piece.color == White then 6 else 1;
    out := moves;
    var one := Position(pos.row + direction, pos.col);
    if IsValidPosition(one.row, one.col) && b[one.row][one.col].None? {
      out := out + [one];
      if pos.row == startRow && b[pos.row + 2 * direction][pos.col].None? {
        out := out + [Position(pos.row + 2 * direction, pos.col)];
      }
    }
    ghost var pushed := out;
    out := PawnCaptureMoves(pos, s, piece.color, out);
    AppendStep(moves, pushed, PawnPushes(b, pos, piece.color),
               PawnCaptures(b, pos, piece.color, [pos.col - 1, pos.col + 1]), out);
  }

  /** The capture loop of `calculatePawnMoves`: a diagonal square one row forward is taken
      when it holds a piece of the other colour. */
  method PawnCaptureMoves(pos: Position, s: GameState, c: PieceColor, moves: seq<Position>)
    returns (out: seq<Position>)
    ensures out == moves + PawnCaptures(s.board, pos, c, [pos.col - 1, pos.col + 1])
  {
    var b := s.board;
    var direction := if c == White then -1 else 1;
    out := moves;
    var captureCols := [pos.col - 1, pos.col + 1];
    for k := 0 to 2
      invariant out == moves + PawnCaptures(b, pos, c, captureCols[..k])
    {
      var t := Position(pos.row + direction, captureCols[k]);
      if IsValidPosition(t.row, t.col) {
        var target := b[t.row][t.col];
        if target.Some? && target.value.color != c {
          out := out + [t];
        }
      }
      assert captureCols[..k + 1][..k] == captureCols[..k];
    }
    assert captureCols[..2] == captureCols;
  }

  /** The single-step loop shared by the knight and the king's neighbour steps: each
      offset's square is taken when it is on the board and empty or held by the other colour. */
  method StepMoves(pos: Position, s: GameState, offsets: seq<(int, int)>, moves: seq<Position>)
    returns (out: seq<Position>)
    requires OnBoard(pos) && At(s.board, pos).Some?
    ensures out == moves + StepTargets(s.board, pos, At(s.board, pos).value.color, offsets)
  {
    var b := s.board;
    var piece := At(b, pos).value;
    out := moves;
    for k := 0 to |offsets|
      invariant out == moves + StepTargets(b, pos, piece.color, offsets[..k])
    {
      var move := Offset(pos, offsets[k]);
      if IsValidPosition(move.row, move.col) {
        var target := b[move.row][move.col];
        if target.None? || target.value.color != piece.color {
          out := out + [move];
        }
      }
      StepTargetsStep(b, pos, piece.color, offsets, k);
    }
    assert offsets[..|offsets|] == offsets;
  }

  /** `calculateKnightMoves`: the eight knight jumps, in the source's order. */
  method CalculateKnightMoves(pos: Position, s: GameState, moves: seq<Position>) returns (out: seq<Position>)
    requires OnBoard(pos) && At(s.board, pos).Some?
    ensures out == moves + KnightTargets(s.board, pos)
  {
    out := StepMoves(pos, s, KnightOffsets, moves);
  }

  /** The `while` walk of a sliding piece in one direction, from `start` on. */
  method WalkRay(s: GameState, c: PieceColor, start: Position, d: Direction, moves: seq<Position>)
    returns (out: seq<Position>)
    requires IsUnit(d)
    ensures out == moves + Ray(s.board, c, start, d)
  {
    var b := s.board;
    out := moves;
    var cur := start;
    while IsValidPosition(cur.row, cur.col)
      invariant out + Ray(b, c, cur, d) == moves + Ray(b, c, start, d)
      decreases RayMeasure(cur, d)
    {
      var target := b[cur.row][cur.col];
      if target.None? {
        out := out + [cur];
      } else {
        if target.value.color != c {
          out := out + [cur];
        }
        break;
      }
      cur := Step(cur, d);
    }
  }

  /** Appending to a list that extends `moves` by `done` extends `moves` by `done` and the
      appended part. */
  lemma AppendStep<T>(moves: seq<T>, prev: seq<T>, done: seq<T>, next: seq<T>, out: seq<T>)
    requires prev == moves + done && out == prev + next
    ensures out == moves + (done + next)
  {
  }

  /** The loop over directions shared by `calculateBishopMoves` and `calculateRookMoves`. */
  method SlideMoves(pos: Position, s: GameState, dirs: seq<Direction>, moves: seq<Position>)
    returns (out: seq<Position>)
    requires OnBoard(pos) && At(s.board, pos).Some? && AllUnit(dirs)
    ensures out == moves + SlideTargets(s.board, pos, At(s.board, pos).value.color, dirs)
  {
    var c := At(s.board, pos).value.color;
    out := moves;
    for k := 0 to |dirs|
      invariant AllUnit(dirs[..k])
      invariant out == moves + SlideTargets(s.board, pos, c, dirs[..k])
    {
      SlideTargetsStep(s.board, pos, c, dirs, k);
      ghost var prev := out;
      out := WalkRay(s, c, Step(pos, dirs[k]), dirs[k], out);
      AppendStep(moves, prev, SlideTargets(s.board, pos, c, dirs[..k]), Ray(s.board, c, Step(pos, dirs[k]), dirs[k]), out);
    }
    assert dirs[..|dirs|] == dirs;
  }

  /** `calculateBishopMoves`: the four diagonal rays. */
  method CalculateBishopMoves(pos: Position, s: GameState, moves: seq<Position>) returns (out: seq<Position>)
    requires OnBoard(pos) && At(s.board, pos).Some?
    ensures out == moves + BishopTargets(s.board, pos)
  {
    out := SlideMoves(pos, s, BishopDirections, moves);
  }

  /** `calculateRookMoves`: the four orthogonal rays. */
  method CalculateRookMoves(pos: Position, s: GameState, moves: seq<Position>) returns (out: seq<Position>)
    requires OnBoard(pos) && At(s.board, pos).Some?
    ensures out == moves + RookTargets(s.board, pos)
  {
    out := SlideMoves(pos, s, RookDirections, moves);
  }

  /** `calculateQueenMoves`: the bishop moves, then the rook moves. */
  method CalculateQueenMoves(pos: Position, s: GameState, moves: seq<Position>) returns (out: seq<Position>)
    requires OnBoard(pos) && At(s.board, pos).Some?
    ensures out == moves + QueenTargets(s.board, pos)
  {
    out := CalculateBishopMoves(pos, s, moves);
    ghost var diagonal := out;
    out := CalculateRookMoves(pos, s, out);
    AppendStep(moves, diagonal, BishopTargets(s.board, pos), RookTargets(s.board, pos), out);
  }
}
