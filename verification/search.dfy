/** The computer player: move enumeration, the evaluator in tenths of a pawn, minimax with
    alpha-beta pruning and its plain minimax reference value. */
module Search {
  import opened ChessTypes
  import opened Squares
  import opened Movement
  import opened Attacks
  import opened KingRules
  import opened Terminal
  import opened Transition
  import opened MaterialBalance

  datatype Move = Move(from: Position, to: Position)

  /** `getDepthFromLevel`: one ply more than the level, at most five. */
  function DepthFromLevel(level: int): (d: int)
    ensures d <= 5 && d <= level + 1
    ensures d == 5 || d == level + 1
    ensures level >= 0 ==> d >= 1
  {
    if level + 1 < 5 then level + 1 else 5
  }

  // ---------------------------------------------------------------- getAllLegalMoves

  /** Every move starts on a square of the board, holds a piece there and targets a row of the board. */
  predicate AllOk(b: Board, moves: seq<Move>) {
    forall i :: 0 <= i < |moves| ==> MoveOk(b, moves[i].from, moves[i].to)
  }

  /** Moves are listed in row-major order of their source squares. */
  predicate RowMajor(moves: seq<Move>) {
    forall i, j :: 0 <= i < j < |moves| ==> moves[i].from == moves[j].from || Before(moves[i].from, moves[j].from)
  }

  lemma RowMajorConcat(a: seq<Move>, b: seq<Move>)
    requires RowMajor(a) && RowMajor(b)
    requires forall i, j :: 0 <= i < |a| && 0 <= j < |b| ==> a[i].from == b[j].from || Before(a[i].from, b[j].from)
    ensures RowMajor(a + b)
  {
    var r := a + b;
    forall i, j | 0 <= i < j < |r| ensures r[i].from == r[j].from || Before(r[i].from, r[j].from) {
      if j < |a| {
      } else if i >= |a| {
        assert r[i] == b[i - |a|] && r[j] == b[j - |a|];
      } else {
        assert r[j] == b[j - |a|];
      }
    }
  }

  lemma ConcatIndex<T>(a: seq<T>, b: seq<T>)
    ensures forall i :: 0 <= i < |a| ==> (a + b)[i] == a[i]
    ensures forall i :: |a| <= i < |a + b| ==> (a + b)[i] == b[i - |a|]
  {
  }

  /** The moves of the piece on `p` when it has colour `c`, in the order of its targets. */
  ghost function SquareMoves(s: GameState, c: PieceColor, p: Position): (r: seq<Move>)
    requires OnBoard(p)
    ensures forall m :: m in r <==> m.from == p && HoldsColor(s.board, p, c) && m.to in Targets(s, p)
    ensures forall i :: 0 <= i < |r| ==> r[i].from == p
    ensures |r| <= 56
  {
    if HoldsColor(s.board, p, c) then
      var ts := Targets(s, p);
      var r := seq(|ts|, i requires 0 <= i < |ts| => Move(p, ts[i]));
      assert forall m :: m in r <==> m.from == p && m.to in ts by {
        forall m: Move | m.from == p && m.to in ts ensures m in r {
          var i :| 0 <= i < |ts| && ts[i] == m.to;
          assert r[i] == m;
        }
      }
      r
    else []
  }

  /** The moves of a square list its targets in order. */
  lemma SquareMovesOrder(s: GameState, c: PieceColor, p: Position)
    requires OnBoard(p)
    ensures !HoldsColor(s.board, p, c) ==> SquareMoves(s, c, p) == []
    ensures HoldsColor(s.board, p, c) ==> |SquareMoves(s, c, p)| == |Targets(s, p)|
    ensures HoldsColor(s.board, p, c) ==>
      forall i :: 0 <= i < |Targets(s, p)| ==> SquareMoves(s, c, p)[i] == Move(p, Targets(s, p)[i])
  {
  }

  /** The moves of colour `c` from the first `n` squares of row `row`. */
  ghost function RowMoves(s: GameState, c: PieceColor, row: int, n: nat): (r: seq<Move>)
    requires 0 <= row < 8 && n <= 8
    ensures forall m :: m in r <==>
      m.from.row == row && 0 <= m.from.col < n && HoldsColor(s.board, m.from, c) && m.to in Targets(s, m.from)
    ensures forall i :: 0 <= i < |r| ==> r[i].from.row == row && 0 <= r[i].from.col < n
    ensures RowMajor(r)
    ensures |r| <= 56 * n
  {
    if n == 0 then []
    else
      var front := RowMoves(s, c, row, n - 1);
      var p := Position(row, n - 1);
      var last := SquareMoves(s, c, p);
      RowMajorConcat(front, last);
      var r := front + last;
      ConcatIndex(front, last);
      assert forall m :: m in r <==> m in front || m in last;
      assert forall m: Move :: m.from.row == row && m.from.col == n - 1 <==> m.from == p;
      r
  }

  /** The moves of colour `c` from rows 0 to `n - 1`. */
  ghost function MovesUpTo(s: GameState, c: PieceColor, n: nat): (r: seq<Move>)
    requires n <= 8
    ensures forall m :: m in r <==>
      0 <= m.from.row < n && 0 <= m.from.col < 8 && HoldsColor(s.board, m.from, c) && m.to in Targets(s, m.from)
    ensures forall i :: 0 <= i < |r| ==> 0 <= r[i].from.row < n
    ensures RowMajor(r)
    ensures |r| <= 448 * n
  {
    if n == 0 then []
    else
      var front := MovesUpTo(s, c, n - 1);
      var last := RowMoves(s, c, n - 1, 8);
      RowMajorConcat(front, last);
      var r := front + last;
      ConcatIndex(front, last);
      r
  }

  /** `getAllLegalMoves`: the pseudo-legal moves of colour `c`, square by square in
      row-major order. */
  ghost function LegalMoves(s: GameState, c: PieceColor): (r: seq<Move>)
    ensures |r| <= 3584
    ensures AllOk(s.board, r)
  {
    var r := MovesUpTo(s, c, 8);
    assert forall i :: 0 <= i < |r| ==> r[i] in r;
    r
  }

  /** A move is listed exactly when it starts on a square holding a piece of colour `c` and
      its target is among that square's targets; every listed move is one `makeMove`
      accepts, and the list is in row-major order of the source squares. */
  lemma LegalMovesMeaning(s: GameState, c: PieceColor)
    ensures forall m :: m in LegalMoves(s, c) <==> HoldsColor(s.board, m.from, c) && m.to in Targets(s, m.from)
    ensures AllOk(s.board, LegalMoves(s, c))
    ensures RowMajor(LegalMoves(s, c))
  {
  }

  // ---------------------------------------------------------------- evaluatePosition (tenths)

  const CenterSquares: seq<Position> := [Position(3, 3), Position(3, 4), Position(4, 3), Position(4, 4)]

  /** One centre square: +1 for a white piece, -1 for a black one. */
  function CenterTerm(sq: Square): int {
    match sq
    case None => 0
    case Some(p) => if p.color == White then 1 else -1
  }

  /** The centre count over the first `n` centre squares. */
  function CenterUpTo(b: Board, n: nat): (r: int)
    requires n <= |CenterSquares|
    ensures -(n as int) <= r <= n
  {
    if n == 0 then 0 else CenterUpTo(b, n - 1) + CenterTerm(At(b, CenterSquares[n - 1]))
  }

  function CenterControl(b: Board): (r: int)
    ensures -4 <= r <= 4
  {
    CenterUpTo(b, 4)
  }

  /** Half a pawn against the side to move when it is in check, nothing otherwise. */
  function CheckTerm(s: GameState): (v: int)
    ensures v != 0 <==> InCheck(s)
    ensures v < 0 <==> InCheck(s) && s.currentTurn == White
    ensures -5 <= v <= 5
  {
    if InCheck(s) then (if s.currentTurn == White then -5 else 5) else 0
  }

  /** The stand-in for the source's infinities: larger than any score. */
  const INF: int := 1_000_000
  const NEG_INF: int := -INF
  const POS_INF: int := INF

  /** The evaluator of the computer player, in tenths of a pawn: ten times the material,
      the difference of the two move counts, the centre count and the check term. It lies
      strictly between the two sentinels. */
  ghost function Score(s: GameState): (r: int)
    ensures NEG_INF < r < POS_INF
  {
    10 * Material(s.board)
      + |LegalMoves(s, White)| - |LegalMoves(s, Black)|
      + CenterControl(s.board)
      + CheckTerm(s)
  }

  // ---------------------------------------------------------------- minimax

  function Max(a: int, b: int): int { if a >= b then a else b }
  function Min(a: int, b: int): int { if a <= b then a else b }

  /** The search stops at depth 0, at checkmate and at stalemate. */
  ghost predicate IsLeaf(s: GameState, depth: nat) {
    depth == 0 || Checkmated(s) || Stalemated(s)
  }

  ghost function Child(s: GameState, m: Move): GameState
    requires MoveOk(s.board, m.from, m.to)
  {
    Applied(s, m.from, m.to)
  }

  /** The positions after each move of the side to move, in the order of `getAllLegalMoves`. */
  ghost function Children(s: GameState): (r: seq<GameState>)
    ensures |r| == |LegalMoves(s, s.currentTurn)|
    ensures forall i :: 0 <= i < |r| ==> r[i] == Child(s, LegalMoves(s, s.currentTurn)[i])
  {
    var moves := LegalMoves(s, s.currentTurn);
    seq(|moves|, i requires 0 <= i < |moves| => Child(s, moves[i]))
  }

  /** `minimax` as written: the fail-soft alpha-beta value. */
  ghost function AlphaBeta(s: GameState, depth: nat, alpha: int, beta: int, isMax: bool): int
    decreases depth, 1, 0
  {
    if IsLeaf(s, depth) then Score(s)
    else if isMax then MaxLoop(Children(s), depth - 1, alpha, beta, NEG_INF)
    else MinLoop(Children(s), depth - 1, alpha, beta, POS_INF)
  }

  /** The maximizing loop from the current child on, with the running `alpha` and `maxEval`;
      the children are searched to depth `d`. */
  ghost function MaxLoop(kids: seq<GameState>, d: nat, alpha: int, beta: int, best: int): int
    decreases d + 1, 0, |kids|
  {
    if kids == [] then best
    else
      var score := AlphaBeta(kids[0], d, alpha, beta, false);
      var best' := Max(best, score);
      var alpha' := Max(alpha, score);
      if beta <= alpha' then best' else MaxLoop(kids[1..], d, alpha', beta, best')
  }

  /** The minimizing loop from the current child on, with the running `beta` and `minEval`;
      the children are searched to depth `d`. */
  ghost function MinLoop(kids: seq<GameState>, d: nat, alpha: int, beta: int, best: int): int
    decreases d + 1, 0, |kids|
  {
    if kids == [] then best
    else
      var score := AlphaBeta(kids[0], d, alpha, beta, true);
      var best' := Min(best, score);
      var beta' := Min(beta, score);
      if beta' <= alpha then best' else MinLoop(kids[1..], d, alpha, beta', best')
  }

  /** The plain minimax value, without pruning: the reference for `minimax`. */
  ghost function MinimaxValue(s: GameState, depth: nat, isMax: bool): int
    decreases depth, 1, 0
  {
    if IsLeaf(s, depth) then Score(s)
    else if isMax then MaxOver(Children(s), depth - 1)
    else MinOver(Children(s), depth - 1)
  }

  /** The largest minimax value among the children (searched to depth `d`), -INF for none. */
  ghost function MaxOver(kids: seq<GameState>, d: nat): (r: int)
    ensures r >= NEG_INF
    decreases d + 1, 0, |kids|
  {
    if kids == [] then NEG_INF
    else Max(MinimaxValue(kids[0], d, false), MaxOver(kids[1..], d))
  }

  /** The smallest minimax value among the children, +INF for none. */
  ghost function MinOver(kids: seq<GameState>, d: nat): (r: int)
    ensures r <= POS_INF
    decreases d + 1, 0, |kids|
  {
    if kids == [] then POS_INF
    else Min(MinimaxValue(kids[0], d, true), MinOver(kids[1..], d))
  }

  // ---------------------------------------------------------------- calculateComputerMove

  /** The full-window values of the positions after each root move, searched to depth `d`
      with the other side minimizing when white is to move and maximizing when black is. */
  ghost function RootValues(s: GameState, d: nat): (r: seq<int>)
    ensures |r| == |Children(s)|
    ensures forall j :: 0 <= j < |r| ==> r[j] == MinimaxValue(Children(s)[j], d, s.currentTurn == Black)
  {
    var kids := Children(s);
    seq(|kids|, j requires 0 <= j < |kids| => MinimaxValue(kids[j], d, s.currentTurn == Black))
  }

  /** `x` beats `y` for the side that maximizes (white) or minimizes (black). */
  predicate Better(x: int, y: int, maximize: bool) {
    if maximize then x > y else x < y
  }

  /** After the root loop has examined the first `n` values, `k` is the move it keeps: its
      value beats every earlier value and no value examined after it beats it. */
  predicate FirstBestAmong(vals: seq<int>, k: int, n: int, maximize: bool) {
    && 0 <= k < n <= |vals|
    && (forall j :: 0 <= j < k ==> Better(vals[k], vals[j], maximize))
    && (forall j :: k < j < n ==> !Better(vals[j], vals[k], maximize))
  }

  /** `k` is the move the root loop keeps in the end: of several equally good moves the
      earliest wins. */
  predicate IsFirstBest(vals: seq<int>, k: int, maximize: bool) {
    FirstBestAmong(vals, k, |vals|, maximize)
  }

  /** `m` is the move `calculateComputerMove` settles on: the first legal move of the side
      to move whose value, searched `getDepthFromLevel(level) - 1` plies below the root, is
      best for that side (highest for white, lowest for black). */
  ghost predicate ChoosesFirstBest(s: GameState, m: Move)
    requires s.computerLevel >= 0
  {
    var moves := LegalMoves(s, s.currentTurn);
    exists k :: 0 <= k < |moves| && m == moves[k]
      && IsFirstBest(RootValues(s, DepthFromLevel(s.computerLevel) - 1), k, s.currentTurn == White)
  }

  /** What a fail-soft search with window (alpha, beta) promises about its result `f`
      relative to the true value `v`: a value at or below alpha is bounded above by `f` ≤ alpha,
      a value inside the window is returned exactly, and a value at or above beta is bounded
      below by beta ≤ `f`. */
  predicate WindowSound(f: int, v: int, alpha: int, beta: int) {
    && (v <= alpha ==> v <= f <= alpha)
    && (alpha < v < beta ==> f == v)
    && (beta <= v ==> beta <= f <= v)
  }
}
