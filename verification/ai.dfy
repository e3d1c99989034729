/** The computer player: `getAllLegalMoves`, the evaluator in tenths of a pawn, `minimax`
    with alpha-beta pruning and the root move choice of `calculateComputerMove`. */
module ChessAI {
  import opened ChessTypes
  import opened Squares
  import opened Search
  import opened SearchTheory
  import ChessLogic
  import ChessLogicPieces

  // ---------------------------------------------------------------- getAllLegalMoves

  /** The innermost loop of `getAllLegalMoves`: a move from `p` to each target of the piece
      on `p`, when that piece has colour `color`. */
  method PushSquareMoves(s: GameState, color: PieceColor, p: Position, moves: seq<Move>)
    returns (out: seq<Move>)
    requires OnBoard(p)
    ensures out == moves + SquareMoves(s, color, p)
  {
    out := moves;
    var piece := s.board[p.row][p.col];
    if piece.Some? && piece.value.color == color {
      var validMoves := ChessLogic.CalculateValidMoves(p, s);
      ghost var sm := SquareMoves(s, color, p);
      SquareMovesOrder(s, color, p);
      for k := 0 to |validMoves|
        invariant out == moves + sm[..k]
      {
        ghost var prev := out;
        out := out + [Move(p, validMoves[k])];
        assert sm[..k + 1] == sm[..k] + [sm[k]];
        ChessLogicPieces.AppendStep(moves, prev, sm[..k], [sm[k]], out);
      }
      assert sm[..|validMoves|] == sm;
    } else {
      SquareMovesOrder(s, color, p);
    }
  }

  /** `getAllLegalMoves`: every square in row-major order, every target of a piece of
      colour `color` on it. */
  method GetAllLegalMoves(s: GameState, color: PieceColor) returns (moves: seq<Move>)
    ensures moves == LegalMoves(s, color)
  {
    moves := [];
    for row := 0 to 8
      invariant moves == MovesUpTo(s, color, row)
    {
      for col := 0 to 8
        invariant moves == MovesUpTo(s, color, row) + RowMoves(s, color, row, col)
      {
        ghost var prev := moves;
        moves := PushSquareMoves(s, color, Position(row, col), moves);
        ChessLogicPieces.AppendStep(MovesUpTo(s, color, row), prev, RowMoves(s, color, row, col),
                                    SquareMoves(s, color, Position(row, col)), moves);
      }
    }
  }

  // ---------------------------------------------------------------- evaluatePosition

  /** `evaluatePosition` of the computer player, in tenths of a pawn: ten times the
      material, the two move counts, the centre squares and the check term. */
  method EvaluatePosition(s: GameState) returns (score: int)
    ensures score == Score(s)
  {
    var material := ChessLogic.EvaluatePosition(s);
    score := 10 * material;
    var whiteMoves := GetAllLegalMoves(s, White);
    var blackMoves := GetAllLegalMoves(s, Black);
    score := score + (|whiteMoves| - |blackMoves|);
    ghost var base := score;
    for i := 0 to |CenterSquares|
      invariant score == base + CenterUpTo(s.board, i)
    {
      var square := CenterSquares[i];
      var piece := s.board[square.row][square.col];
      if piece.Some? {
        score := score + (if piece.value.color == White then 1 else -1);
      }
    }
    var inCheck := ChessLogic.IsKingInCheck(s);
    if inCheck {
      score := score + (if s.currentTurn == White then -5 else 5);
    }
  }

  // ---------------------------------------------------------------- minimax

  /** The terminal test of `minimax`, evaluated left to right with short-circuit: depth 0,
      then checkmate, then stalemate. */
  method IsLeafNode(s: GameState, depth: nat) returns (leaf: bool)
    ensures leaf == IsLeaf(s, depth)
    ensures !leaf ==> depth > 0
  {
    leaf := depth == 0;
    if !leaf {
      leaf := ChessLogic.IsCheckmate(s);
    }
    if !leaf {
      leaf := ChessLogic.IsStalemate(s);
    }
  }

  /** `minimax`: the evaluation at depth 0, checkmate or stalemate; otherwise the
      maximizing or minimizing loop over the moves of the side to move. */
  method Minimax(s: GameState, depth: nat, alpha: int, beta: int, isMax: bool) returns (r: int)
    ensures r == AlphaBeta(s, depth, alpha, beta, isMax)
    decreases 2 * depth + 1
  {
    var leaf := IsLeafNode(s, depth);
    if leaf {
      r := EvaluatePosition(s);
      LeafValue(s, depth, alpha, beta, isMax);
    } else {
      var d: nat := depth - 1;
      LoopDepth(Children(s), d, depth - 1, alpha, beta);
      if isMax {
        r := MaxSearch(s, d, alpha, beta);
        InnerMax(s, depth, alpha, beta);
      } else {
        r := MinSearch(s, d, alpha, beta);
        InnerMin(s, depth, alpha, beta);
      }
    }
  }

  /** The suffix of a list from `i` on is its `i`-th element followed by the suffix from `i + 1`. */
  lemma SplitAt<T>(xs: seq<T>, i: nat)
    requires i < |xs|
    ensures xs[i..] == [xs[i]] + xs[i + 1..]
  {
  }

  /** The maximizing loop of `minimax` over the moves of the side to move, each child
      searched to depth `d`: `maxEval` and `alpha` rise with each score, and the loop
      stops as soon as beta <= alpha. */
  method MaxSearch(s: GameState, d: nat, alpha0: int, beta: int) returns (maxEval: int)
    ensures maxEval == MaxLoop(Children(s), d, alpha0, beta, NEG_INF)
    decreases 2 * d + 2
  {
    var moves := GetAllLegalMoves(s, s.currentTurn);
    ghost var kids := Children(s);
    ghost var target := MaxLoop(kids, d, alpha0, beta, NEG_INF);
    var alpha := alpha0;
    maxEval := NEG_INF;
    var i := 0;
    while i < |moves|
      invariant 0 <= i <= |moves|
      invariant MaxLoop(kids[i..], d, alpha, beta, maxEval) == target
    {
      var newState := ChessLogic.MakeMove(s, moves[i].from, moves[i].to);
      assert newState == kids[i];
      SplitAt(kids, i);
      var score := Minimax(newState, d, alpha, beta, false);
      maxEval := Max(maxEval, score);
      alpha := Max(alpha, score);
      if beta <= alpha {
        break;
      }
      i := i + 1;
    }
  }

  /** The minimizing loop of `minimax`, the mirror image of `MaxSearch`: `minEval` and
      `beta` fall with each score. */
  method MinSearch(s: GameState, d: nat, alpha: int, beta0: int) returns (minEval: int)
    ensures minEval == MinLoop(Children(s), d, alpha, beta0, POS_INF)
    decreases 2 * d + 2
  {
    var moves := GetAllLegalMoves(s, s.currentTurn);
    ghost var kids := Children(s);
    ghost var target := MinLoop(kids, d, alpha, beta0, POS_INF);
    var beta := beta0;
    minEval := POS_INF;
    var i := 0;
    while i < |moves|
      invariant 0 <= i <= |moves|
      invariant MinLoop(kids[i..], d, alpha, beta, minEval) == target
    {
      var newState := ChessLogic.MakeMove(s, moves[i].from, moves[i].to);
      assert newState == kids[i];
      SplitAt(kids, i);
      var score := Minimax(newState, d, alpha, beta, true);
      minEval := Min(minEval, score);
      beta := Min(beta, score);
      if beta <= alpha {
        break;
      }
      i := i + 1;
    }
  }

  // ---------------------------------------------------------------- calculateComputerMove

  /** The body of the root loop of `calculateComputerMove`: the position after the `i`-th
      legal move searched with the full window to depth `d`, its value being the plain
      minimax value of that child. */
  method RootScore(s: GameState, moves: seq<Move>, i: nat, d: nat) returns (score: int)
    requires moves == LegalMoves(s, s.currentTurn) && i < |moves|
    ensures score == RootValues(s, d)[i]
    ensures NEG_INF < score < POS_INF
  {
    var newState := ChessLogic.MakeMove(s, moves[i].from, moves[i].to);
    score := Minimax(newState, d, NEG_INF, POS_INF, s.currentTurn == Black);
    FullWindowIsMinimax(newState, d, s.currentTurn == Black);
  }

  /** One turn of the root loop: the `i`-th move is kept when its value is strictly better
      for the side to move than the best so far, which makes the kept move the first best
      among the first `i + 1`. */
  method RootStep(s: GameState, moves: seq<Move>, d: nat, i: nat,
                  best: Option<Move>, bestScore: int, ghost k: nat)
    returns (best': Option<Move>, bestScore': int, ghost k': nat)
    requires moves == LegalMoves(s, s.currentTurn) && i < |moves|
    requires i == 0 ==> bestScore == (if s.currentTurn == White then NEG_INF else POS_INF)
    requires i > 0 ==>
      FirstBestAmong(RootValues(s, d), k, i, s.currentTurn == White)
        && best == Some(moves[k]) && bestScore == RootValues(s, d)[k]
    ensures FirstBestAmong(RootValues(s, d), k', i + 1, s.currentTurn == White)
    ensures best' == Some(moves[k']) && bestScore' == RootValues(s, d)[k']
  {
    ghost var vals := RootValues(s, d);
    var score := RootScore(s, moves, i, d);
    if i == 0 {
      FirstBestStart(vals, s.currentTurn == White);
    } else {
      FirstBestStep(vals, k, i, s.currentTurn == White);
    }
    best', bestScore', k' := best, bestScore, k;
    if Better(score, bestScore, s.currentTurn == White) {
      bestScore' := score;
      best' := Some(moves[i]);
      k' := i;
    }
  }

  /** The root loop of `calculateComputerMove` over the non-empty list of legal moves, each
      child searched to depth `getDepthFromLevel(level) - 1`: the kept move is the first
      best one. */
  method RootLoop(s: GameState, moves: seq<Move>) returns (best: Option<Move>)
    requires moves == LegalMoves(s, s.currentTurn) && moves != [] && s.computerLevel >= 0
    ensures best.Some? && best.value in moves && ChoosesFirstBest(s, best.value)
  {
    var depth := DepthFromLevel(s.computerLevel);
    var d: nat := depth - 1;
    best := None;
    var bestScore := if s.currentTurn == White then NEG_INF else POS_INF;
    ghost var k := 0;
    for i := 0 to |moves|
      invariant i == 0 ==> bestScore == (if s.currentTurn == White then NEG_INF else POS_INF)
      invariant i > 0 ==>
        FirstBestAmong(RootValues(s, d), k, i, s.currentTurn == White)
          && best == Some(moves[k]) && bestScore == RootValues(s, d)[k]
    {
      best, bestScore, k := RootStep(s, moves, d, i, best, bestScore, k);
    }
    RootDepth(s, d, DepthFromLevel(s.computerLevel) - 1);
    assert best.value == moves[k]
      && IsFirstBest(RootValues(s, DepthFromLevel(s.computerLevel) - 1), k, s.currentTurn == White);
  }

  /** `calculateComputerMove`: no move exactly when the side to move has no legal move;
      otherwise the first best move by minimax value. */
  method CalculateComputerMove(s: GameState) returns (best: Option<Move>)
    requires s.computerLevel >= 0
    ensures best.None? <==> LegalMoves(s, s.currentTurn) == []
    ensures best.Some? ==> best.value in LegalMoves(s, s.currentTurn)
    ensures best.Some? ==> ChoosesFirstBest(s, best.value)
  {
    var moves := GetAllLegalMoves(s, s.currentTurn);
    if |moves| == 0 {
      return None;
    }
    best := RootLoop(s, moves);
  }
}
