/** Pseudo-legal targets of pawns, knights, bishops, rooks and queens. None of these
    consults attacks or check, so they form the lowest layer of move generation. */
module Movement {
  import opened ChessTypes
  import opened Squares

  /** White pawns move towards row 0, black pawns towards row 7. */
  function Forward(c: PieceColor): int {
    if c == White then -1 else 1
  }

  function StartRow(c: PieceColor): int {
    if c == White then 6 else 1
  }

  /** A square a piece of colour `c` may move to: on the board, and empty or held by the other colour. */
  predicate CanLand(b: Board, t: Position, c: PieceColor) {
    OnBoard(t) && (At(b, t).None? || At(b, t).value.color != c)
  }

  predicate IsEnemy(b: Board, t: Position, c: PieceColor) {
    OnBoard(t) && At(b, t).Some? && At(b, t).value.color != c
  }

  // ---------------------------------------------------------------- pawns

  function PawnPushes(b: Board, pos: Position, c: PieceColor): seq<Position>
    requires OnBoard(pos)
  {
    var one := Position(pos.row + Forward(c), pos.col);
    if OnBoard(one) && At(b, one).None? then
      if pos.row == StartRow(c) && At(b, Position(pos.row + 2 * Forward(c), pos.col)).None? then
        [one, Position(pos.row + 2 * Forward(c), pos.col)]
      else
        [one]
    else
      []
  }

  /** Diagonal captures, one candidate column at a time, in the order of `cols`. */
  function PawnCaptures(b: Board, pos: Position, c: PieceColor, cols: seq<int>): seq<Position>
  {
    if cols == [] then []
    else
      var t := Position(pos.row + Forward(c), cols[|cols| - 1]);
      PawnCaptures(b, pos, c, cols[..|cols| - 1]) + (if IsEnemy(b, t, c) then [t] else [])
  }

  /** The pawn rule, square by square. */
  ghost predicate PawnRule(b: Board, pos: Position, t: Position)
    requires OnBoard(pos) && At(b, pos).Some?
  {
    var c := At(b, pos).value.color;
    var f := Forward(c);
    || (t == Position(pos.row + f, pos.col) && OnBoard(t) && At(b, t).None?)
    || (pos.row == StartRow(c) && t == Position(pos.row + 2 * f, pos.col)
        && At(b, Position(pos.row + f, pos.col)).None? && At(b, t).None?)
    || (t.row == pos.row + f && (t.col == pos.col - 1 || t.col == pos.col + 1) && IsEnemy(b, t, c))
  }

  function PawnTargets(b: Board, pos: Position): seq<Position>
    requires OnBoard(pos) && At(b, pos).Some?
  {
    var c := At(b, pos).value.color;
    PawnPushes(b, pos, c) + PawnCaptures(b, pos, c, [pos.col - 1, pos.col + 1])
  }

  lemma {:induction false} PawnCapturesMembers(b: Board, pos: Position, c: PieceColor, cols: seq<int>)
    ensures forall t :: t in PawnCaptures(b, pos, c, cols) <==>
      t.row == pos.row + Forward(c) && t.col in cols && IsEnemy(b, t, c)
    ensures |PawnCaptures(b, pos, c, cols)| <= |cols|
  {
    if cols != [] {
      var init := cols[..|cols| - 1];
      PawnCapturesMembers(b, pos, c, init);
      assert cols == init + [cols[|cols| - 1]];
    }
  }

  /** A pawn moves one square forward onto an empty square; two squares forward from its
      start row when both squares are empty; and diagonally forward only onto a piece of the
      other colour. Nothing else is a target, and there are at most four. */
  lemma PawnTargetsRule(b: Board, pos: Position)
    requires OnBoard(pos) && At(b, pos).Some?
    ensures forall t :: t in PawnTargets(b, pos) <==> PawnRule(b, pos, t)
    ensures |PawnTargets(b, pos)| <= 4
  {
    var c := At(b, pos).value.color;
    PawnCapturesMembers(b, pos, c, [pos.col - 1, pos.col + 1]);
  }

  // ---------------------------------------------------------------- single steps

  function Offset(p: Position, o: (int, int)): Position {
    Position(p.row + o.0, p.col + o.1)
  }

  /** The targets among fixed offsets from `pos`, in the order of the offsets: each square
      reached by one offset that is on the board and not held by colour `c`. */
  function StepTargets(b: Board, pos: Position, c: PieceColor, offsets: seq<(int, int)>): (r: seq<Position>)
    ensures forall t :: t in r <==>
      exists k :: 0 <= k < |offsets| && t == Offset(pos, offsets[k]) && CanLand(b, t, c)
    ensures |r| <= |offsets|
  {
    if offsets == [] then []
    else
      var init := offsets[..|offsets| - 1];
      var t := Offset(pos, offsets[|offsets| - 1]);
      var r := StepTargets(b, pos, c, init) + (if CanLand(b, t, c) then [t] else []);
      assert forall k :: 0 <= k < |init| ==> offsets[k] == init[k];
      r
  }

  /** One more offset adds its square at the end when the piece may land there. */
  lemma StepTargetsStep(b: Board, pos: Position, c: PieceColor, offsets: seq<(int, int)>, k: nat)
    requires k < |offsets|
    ensures StepTargets(b, pos, c, offsets[..k + 1])
      == StepTargets(b, pos, c, offsets[..k])
         + (if CanLand(b, Offset(pos, offsets[k]), c) then [Offset(pos, offsets[k])] else [])
  {
    assert offsets[..k + 1][..k] == offsets[..k];
  }

  const KnightOffsets: seq<(int, int)> :=
    [(-2, -1), (-2, 1), (-1, -2), (-1, 2), (1, -2), (1, 2), (2, -1), (2, 1)]

  /** A knight's jump: two squares along one axis and one along the other. */
  predicate KnightJump(pos: Position, t: Position) {
    var dr := t.row - pos.row;
    var dc := t.col - pos.col;
    || ((dr == 2 || dr == -2) && (dc == 1 || dc == -1))
    || ((dr == 1 || dr == -1) && (dc == 2 || dc == -2))
  }

  /** At most one target per jump, each one the knight may land on. */
  function KnightTargets(b: Board, pos: Position): (r: seq<Position>)
    requires OnBoard(pos) && At(b, pos).Some?
    ensures |r| <= 8
    ensures forall t :: t in r ==> CanLand(b, t, At(b, pos).value.color)
  {
    StepTargets(b, pos, At(b, pos).value.color, KnightOffsets)
  }

  /** A knight target is exactly a square a knight's jump away that the knight may land on. */
  lemma KnightTargetsRule(b: Board, pos: Position)
    requires OnBoard(pos) && At(b, pos).Some?
    ensures forall t :: t in KnightTargets(b, pos) <==> KnightJump(pos, t) && CanLand(b, t, At(b, pos).value.color)
  {
    var c := At(b, pos).value.color;
    forall t | KnightJump(pos, t) && CanLand(b, t, c)
      ensures t in KnightTargets(b, pos)
    {
      var k :=
        if t.row - pos.row == -2 then (if t.col < pos.col then 0 else 1)
        else if t.row - pos.row == -1 then (if t.col < pos.col then 2 else 3)
        else if t.row - pos.row == 1 then (if t.col < pos.col then 4 else 5)
        else (if t.col < pos.col then 6 else 7);
      assert t == Offset(pos, KnightOffsets[k]);
    }
  }

  // ---------------------------------------------------------------- sliding pieces

  datatype Direction = Direction(dr: int, dc: int)

  predicate IsUnit(d: Direction) {
    -1 <= d.dr <= 1 && -1 <= d.dc <= 1 && (d.dr != 0 || d.dc != 0)
  }

  function Step(p: Position, d: Direction): Position {
    Position(p.row + d.dr, p.col + d.dc)
  }

  /** How far a coordinate may still travel in direction `dx` before it leaves 0..7. */
  function Room(x: int, dx: int): int {
    if dx > 0 then 8 - x else if dx < 0 then x + 1 else 0
  }

  function RayMeasure(p: Position, d: Direction): int {
    Room(p.row, d.dr) + Room(p.col, d.dc)
  }

  /** The number of squares from `p` to the board edge in direction `d`, `p` included: the
      room of the coordinate that moves, or the smaller room of the two on a diagonal. */
  function Reach(p: Position, d: Direction): int {
    if d.dr == 0 then Room(p.col, d.dc)
    else if d.dc == 0 then Room(p.row, d.dr)
    else if Room(p.row, d.dr) <= Room(p.col, d.dc) then Room(p.row, d.dr)
    else Room(p.col, d.dc)
  }

  /** The squares a sliding piece of colour `c` reaches from `cur` onwards in direction `d`:
      empty squares are taken and the walk goes on; the first occupied square ends it and
      is taken only when it holds the other colour; the board edge ends it too. Every
      square taken is one the piece may land on. */
  function Ray(b: Board, c: PieceColor, cur: Position, d: Direction): (r: seq<Position>)
    requires IsUnit(d)
    decreases RayMeasure(cur, d)
    ensures !OnBoard(cur) ==> r == []
    ensures forall t :: t in r ==> CanLand(b, t, c)
  {
    if !OnBoard(cur) then []
    else if At(b, cur).None? then [cur] + Ray(b, c, Step(cur, d), d)
    else if At(b, cur).value.color != c then [cur]
    else []
  }

  /** The shape of a ray: consecutive squares one step apart starting at `cur`, all empty
      but the last; the last is empty or held by the other colour, and when it is empty
      the next square is not one the piece may land on. An empty ray means `cur` itself is
      not one. */
  lemma RayShape(b: Board, c: PieceColor, cur: Position, d: Direction)
    requires IsUnit(d)
    ensures var r := Ray(b, c, cur, d);
      && (forall i :: 0 <= i < |r| ==> OnBoard(r[i]))
      && (r != [] ==> r[0] == cur)
      && (forall i :: 0 <= i < |r| - 1 ==> At(b, r[i]).None? && r[i + 1] == Step(r[i], d))
      && (r == [] ==> !CanLand(b, cur, c))
      && (r != [] && At(b, r[|r| - 1]).None? ==> !CanLand(b, Step(r[|r| - 1], d), c))
  {
    RaySteps(b, c, cur, d);
    RayEmpty(b, c, cur, d);
    RayLast(b, c, cur, d);
  }

  /** The squares of a ray follow each other one step apart from `cur`, over empty squares. */
  lemma {:induction false} RaySteps(b: Board, c: PieceColor, cur: Position, d: Direction)
    requires IsUnit(d)
    decreases RayMeasure(cur, d)
    ensures var r := Ray(b, c, cur, d);
      && (forall i :: 0 <= i < |r| ==> OnBoard(r[i]))
      && (r != [] ==> r[0] == cur)
      && (forall i :: 0 <= i < |r| - 1 ==> At(b, r[i]).None? && r[i + 1] == Step(r[i], d))
  {
    if OnBoard(cur) && At(b, cur).None? {
      RaySteps(b, c, Step(cur, d), d);
      var rest := Ray(b, c, Step(cur, d), d);
      var r := [cur] + rest;
      assert forall i :: 0 < i < |r| ==> r[i] == rest[i - 1];
    }
    var r := Ray(b, c, cur, d);
    assert forall i :: 0 <= i < |r| ==> r[i] in r;
  }

  /** A ray is empty only when `cur` is not a square to land on. */
  lemma RayEmpty(b: Board, c: PieceColor, cur: Position, d: Direction)
    requires IsUnit(d)
    ensures Ray(b, c, cur, d) == [] ==> !CanLand(b, cur, c)
  {
  }

  /** A ray ending on an empty square ends there because the next square is not one to
      land on. */
  lemma {:induction false} RayLast(b: Board, c: PieceColor, cur: Position, d: Direction)
    requires IsUnit(d)
    decreases RayMeasure(cur, d)
    ensures var r := Ray(b, c, cur, d);
      r != [] ==> OnBoard(r[|r| - 1]) && (At(b, r[|r| - 1]).None? ==> !CanLand(b, Step(r[|r| - 1], d), c))
  {
    if OnBoard(cur) {
      var r := Ray(b, c, cur, d);
      if At(b, cur).None? {
        var rest := Ray(b, c, Step(cur, d), d);
        assert r == [cur] + rest;
        if rest == [] {
          RayEmpty(b, c, Step(cur, d), d);
        } else {
          RayLast(b, c, Step(cur, d), d);
          assert r[|r| - 1] == rest[|rest| - 1];
        }
      } else {
        assert r != [] ==> r == [cur];
      }
    }
  }

  /** A ray starting next to `pos` holds at most 7 squares. */
  lemma RayBound(b: Board, c: PieceColor, pos: Position, d: Direction)
    requires OnBoard(pos) && IsUnit(d)
    ensures |Ray(b, c, Step(pos, d), d)| <= 7
  {
    RayLength(b, c, Step(pos, d), d);
  }

  /** A ray from a square on the board is no longer than the reach from that square to the
      edge in its direction. */
  lemma {:induction false} RayLength(b: Board, c: PieceColor, cur: Position, d: Direction)
    requires IsUnit(d)
    decreases RayMeasure(cur, d)
    ensures OnBoard(cur) ==> |Ray(b, c, cur, d)| <= Reach(cur, d) <= 8
  {
    if OnBoard(cur) && At(b, cur).None? {
      RayLength(b, c, Step(cur, d), d);
    }
  }

  predicate AllUnit(dirs: seq<Direction>) {
    forall i :: 0 <= i < |dirs| ==> IsUnit(dirs[i])
  }

  /** The rays of `dirs`, one after another, each starting next to `pos`. */
  function SlideTargets(b: Board, pos: Position, c: PieceColor, dirs: seq<Direction>): (r: seq<Position>)
    requires OnBoard(pos) && AllUnit(dirs)
    ensures |r| <= 7 * |dirs|
    ensures forall t :: t in r ==> CanLand(b, t, c)
  {
    if dirs == [] then []
    else
      var last := dirs[|dirs| - 1];
      RayBound(b, c, pos, last);
      SlideTargets(b, pos, c, dirs[..|dirs| - 1]) + Ray(b, c, Step(pos, last), last)
  }

  /** One more direction adds its ray at the end. */
  lemma SlideTargetsStep(b: Board, pos: Position, c: PieceColor, dirs: seq<Direction>, k: nat)
    requires OnBoard(pos) && AllUnit(dirs) && k < |dirs|
    ensures AllUnit(dirs[..k]) && AllUnit(dirs[..k + 1])
    ensures SlideTargets(b, pos, c, dirs[..k + 1])
      == SlideTargets(b, pos, c, dirs[..k]) + Ray(b, c, Step(pos, dirs[k]), dirs[k])
  {
    assert dirs[..k + 1][..k] == dirs[..k];
  }

  const BishopDirections: seq<Direction> :=
    [Direction(-1, -1), Direction(-1, 1), Direction(1, -1), Direction(1, 1)]

  const RookDirections: seq<Direction> :=
    [Direction(-1, 0), Direction(1, 0), Direction(0, -1), Direction(0, 1)]

  /** The four diagonal rays: at most 28 squares, each one the bishop may land on. */
  function BishopTargets(b: Board, pos: Position): (r: seq<Position>)
    requires OnBoard(pos) && At(b, pos).Some?
    ensures |r| <= 28
    ensures forall t :: t in r ==> CanLand(b, t, At(b, pos).value.color)
  {
    SlideTargets(b, pos, At(b, pos).value.color, BishopDirections)
  }

  /** The four orthogonal rays: at most 28 squares, each one the rook may land on. */
  function RookTargets(b: Board, pos: Position): (r: seq<Position>)
    requires OnBoard(pos) && At(b, pos).Some?
    ensures |r| <= 28
    ensures forall t :: t in r ==> CanLand(b, t, At(b, pos).value.color)
  {
    SlideTargets(b, pos, At(b, pos).value.color, RookDirections)
  }

  /** The bishop targets followed by the rook targets: at most 56 squares, each one the
      queen may land on. */
  function QueenTargets(b: Board, pos: Position): (r: seq<Position>)
    requires OnBoard(pos) && At(b, pos).Some?
    ensures |r| <= 56
    ensures forall t :: t in r ==> CanLand(b, t, At(b, pos).value.color)
  {
    BishopTargets(b, pos) + RookTargets(b, pos)
  }

  /** The targets of any piece but a king (`calculateValidMoves` for those kinds). Every
      target is on the board and free of the mover's own colour. */
  function PieceTargets(b: Board, pos: Position): (r: seq<Position>)
    requires OnBoard(pos) && At(b, pos).Some? && At(b, pos).value.kind != King
    ensures forall t :: t in r ==> CanLand(b, t, At(b, pos).value.color)
    ensures |r| <= 56
  {
    match At(b, pos).value.kind
    case Pawn => PawnTargetsRule(b, pos); PawnTargets(b, pos)
    case Knight => KnightTargets(b, pos)
    case Bishop => BishopTargets(b, pos)
    case Rook => RookTargets(b, pos)
    case Queen => QueenTargets(b, pos)
  }
}
