# Chess rules engine and minimax player, in Dafny

This project models the core of a browser chess game. The core has three parts:

- the rules engine (`src/utils/chessLogic.ts`);
- the computer player (`src/utils/chessAI.ts`);
- the board types (`src/types/chess.ts`).

Each part has two layers:

- **Specification functions.** They say what each operation of the engine computes. Most are ghost.
  - `ChessTypes`: pieces, colours, positions, the 8x8 board and the game state record (src/types/chess.ts:1-37), and `PIECE_VALUES`. The types are datatypes and carry no contracts.
  - `Squares`: reading and writing cells, and the starting position.
  - `Movement`: pseudo-legal targets of pawns, knights, bishops, rooks and queens.
  - `Attacks`: attack and check.
  - `KingRules`: king steps, castling and the full generator.
  - `Terminal`: checkmate and stalemate.
  - `Transition`: move application.
  - `MaterialBalance`: the material count.
  - `Search`: move enumeration, the evaluator in tenths of a pawn, the fail-soft alpha-beta value and the plain minimax value.
  - `SearchTheory`: what the search computes.
- **Imperative methods.** They follow the source's loops, early exits and `break`s step by step. Each is proved equal to its specification function.
  - `ChessLogicPieces` and `ChessLogic` cover `chessLogic.ts`.
  - `ChessAI` covers `chessAI.ts`.

The model keeps the engine's rules exactly as the code has them:

- **Move generation is pseudo-legal.** Nothing filters out a move that leaves the mover's own king in check.
- **Pawn pushes count as attacks.** The attack test reuses the move generator, so a pawn's forward pushes count as attacks.
- **A king attacks by adjacency only.** This breaks the mutual recursion between generation and attack. Each method of the generation/attack cycle carries a rank that drops along every call between them, and that rank is the termination measure. The seven methods are `CalculateValidMoves`, `CalculateKingMoves`, `CanCastle`, `PathIsSafe`, `IsKingInCheck`, `IsSquareUnderAttack` and `AttacksFromSquare`.
- **The scratch state flips the side to move.** The scratch state of `isCheckmate` and `isStalemate` does this, so the check test run on it looks at the opponent's king.
- **`canCastle` tests the side to move.** Its "not in check" rule asks whether the side to move is in check, whatever the colour of the castling king.
- **Promotion is always to a queen.**
- **Off-board castling writes are dropped.** A castling write to a column outside the board is modelled as no write. No read of the engine looks at such a square. Such a write needs an unmoved king standing off column 4, which never happens in a game from the starting position (`Squares.HomeKings`).
- **The root keeps the first best move.** The root loop of `calculateComputerMove` keeps the first move whose score is strictly better for the side to move. It uses the full window and searches each child `getDepthFromLevel(level) - 1` plies deep.

The proved properties include:

- the per-piece movement rules, and the shape of a sliding ray;
- castling offered exactly when its four rules hold;
- the frame of `makeMove`: nothing but the written squares changes;
- consistency of the status flags after a move;
- mutual exclusion of checkmate and stalemate;
- the material balance and its change under a write;
- the bounds of the evaluator;
- soundness of fail-soft alpha-beta against plain minimax for every window (after Knuth and Moore), and equality with minimax for the full window;
- that the root choice is the first best move, and attains the minimax value of the root one ply deeper.

Where the code and the design description of the engine disagree, the model follows the code:

- **Legality filter.**
  - The description: a generated move that leaves the mover's king in check is discarded.
  - The code: there is no such filter.
- **`isCheckmate` and `isStalemate`.**
  - The description: these test the mover's own king after each move, and stalemate means zero legal moves.
  - The code: both test the king of the side that did not move, on a scratch state with the turn flipped.
- **The computer player.**
  - The description: two alternative strategies, minimax with alpha-beta pruning and a one-ply scorer that picks at random among the top three moves, and the chosen one is to be documented.
  - The code: only the minimax player exists, and the model follows it. The one-ply scorer is not part of this model.

## Model

| member | source | states |
|---|---|---|
| ChessTypes.PieceValue | src/types/chess.ts:45-52 | piece values are 1, 3, 3, 5, 9, 0: never negative, at most 9, and zero exactly for the king |
| ChessTypes.Opponent | src/utils/chessLogic.ts:379 | flipping the side to move always gives the other colour |
| Squares.IsValidPosition | src/utils/chessLogic.ts:22-24 | (definition, no contract of its own) a square is on the board when its row and column both lie in 0..7; every square read in the model passes it |
| Squares.Put | src/utils/chessLogic.ts:364-374 | a write changes exactly the written square of the board and leaves every other square as it was |
| Squares.InitializeBoard | src/utils/chessLogic.ts:3-20 | the new board has black pawns on row 1, white pawns on row 6, the back-rank order rook, knight, bishop, queen, king, bishop, knight, rook on rows 0 and 7, rows 2-5 empty, nothing moved |
| Squares.StartingPositionFacts | src/utils/chessLogic.ts:13-17 | in the starting position no piece has moved, the only kings are the black one on (0,4) and the white one on (7,4), and every unmoved king is on column 4 |
| Movement.PawnCapturesMembers | src/utils/chessLogic.ts:191-199 | a square is a pawn capture exactly when it is one row forward, on a candidate column, and holds a piece of the other colour |
| Movement.PawnTargets | src/utils/chessLogic.ts:176-200 | (definition, no contract of its own) the forward pushes followed by the captures towards column - 1 and column + 1; `Movement.PawnTargetsRule` states which squares these are |
| Movement.PawnTargetsRule | src/utils/chessLogic.ts:176-200 | a pawn target is exactly one forward onto an empty square, two forward from the start row over two empty squares, or a diagonal onto an enemy piece; at most four targets |
| Movement.StepTargets | src/utils/chessLogic.ts:212-219 | a knight (or king-step) target is exactly an offset square on the board that is empty or holds the other colour; at most one per offset |
| Movement.StepTargetsStep | src/utils/chessLogic.ts:212-219 | each further offset appends its square exactly when the piece may land there |
| Movement.KnightTargets | src/utils/chessLogic.ts:202-220 | at most eight targets, each on the board and free of the mover's colour |
| Movement.KnightTargetsRule | src/utils/chessLogic.ts:202-220 | a knight target is exactly a square two rows and one column, or one row and two columns, away that the knight may land on |
| Movement.Ray | src/utils/chessLogic.ts:234-246 | a ray from off the board is empty; every square a ray takes is on the board and empty or held by the other colour |
| Movement.RayShape | src/utils/chessLogic.ts:234-246 | a ray is consecutive squares one step apart from its start, all empty but the last, which is empty or an enemy; it stops only at the edge or at a piece; an empty ray means its first square is not one to land on |
| Movement.RaySteps | src/utils/chessLogic.ts:234-246 | the squares of a ray start at the first square and follow each other one step apart over empty squares |
| Movement.RayLast | src/utils/chessLogic.ts:234-243 | when a ray ends on an empty square, the next square is off the board or holds the mover's own colour |
| Movement.RayLength | src/utils/chessLogic.ts:231-246 | a ray from a square on the board has no more squares than lie from that square to the board edge in its direction: the room of the moving coordinate, or the smaller room of the two on a diagonal; never more than 8 |
| Movement.RayBound | src/utils/chessLogic.ts:230-246 | a ray starting next to the piece has at most 7 squares |
| Movement.SlideTargets | src/utils/chessLogic.ts:230-247 | the rays of the directions, in order: at most 7 squares per direction, every one a square the piece may land on |
| Movement.SlideTargetsStep | src/utils/chessLogic.ts:230-247 | each further direction appends exactly its ray |
| Movement.BishopTargets | src/utils/chessLogic.ts:222-248 | the four diagonal rays: at most 28 targets, each on the board and free of the mover's colour |
| Movement.RookTargets | src/utils/chessLogic.ts:250-276 | the four orthogonal rays: at most 28 targets, each on the board and free of the mover's colour |
| Movement.QueenTargets | src/utils/chessLogic.ts:278-281 | the bishop targets followed by the rook targets: at most 56, each on the board and free of the mover's colour |
| Movement.PieceTargets | src/utils/chessLogic.ts:145-174 | the targets of a pawn, knight, bishop, rook or queen are on the board and free of the mover's colour, at most 56 of them |
| Attacks.AttacksFrom | src/utils/chessLogic.ts:29-49 | (definition, no contract of its own) a piece not of the defending colour stands on the square and reaches the target: a king by adjacency, any other piece through its generated targets; `ChessLogic.AttacksFromSquare` is proved equal to it |
| Attacks.Attacked | src/utils/chessLogic.ts:26-54 | (definition, no contract of its own) some square of the board holds such an attacker; `ChessLogic.IsSquareUnderAttack` is proved equal to it |
| Attacks.InCheck | src/utils/chessLogic.ts:56-71 | (definition, no contract of its own) the side to move has a king and its first king in row-major order is attacked; `Attacks.InCheckMeaning` states what it means |
| Attacks.KingInRow | src/utils/chessLogic.ts:59-65 | the scan of one row finds the first king of the colour from the given column on, or reports that there is none |
| Attacks.KingFrom | src/utils/chessLogic.ts:58-67 | the scan from a row on finds the first king of the colour in row-major order, or reports that there is none |
| Attacks.KingSquare | src/utils/chessLogic.ts:57-69 | the king found is the first king of the side in row-major order; none is found exactly when that side has no king |
| Attacks.InCheckMeaning | src/utils/chessLogic.ts:56-71 | a side with no king is never in check; otherwise check means exactly that its first king in row-major order is attacked |
| KingRules.PathClear | src/utils/chessLogic.ts:335-340 | (definition, no contract of its own) every square strictly between the king and the rook is empty; `ChessLogic.PathIsClear` is proved equal to it |
| KingRules.PathSafe | src/utils/chessLogic.ts:342-348 | (definition, no contract of its own) no square of the king's path is attacked; `KingRules.PathSafeSpan` states which squares those are |
| KingRules.CastleAllowed | src/utils/chessLogic.ts:316-351 | (definition, no contract of its own) the rook is an unmoved rook of the king's colour, the king is unmoved, the side to move is not in check, the path is clear and safe; `KingRules.CastleTargetIff` ties it to the king's targets |
| KingRules.Targets | src/utils/chessLogic.ts:145-174 | an empty square has no targets; every target is on a board row, and on the board and free of the mover's colour unless it is the castling jump of a king standing off its home column; at most 56 targets |
| KingRules.KingStepsAreNotJumps | src/utils/chessLogic.ts:287-301 | every king step is a neighbour the king may land on, never a two-column jump |
| KingRules.CastleTargetIff | src/utils/chessLogic.ts:303-351 | the square two columns towards a rook is a king target exactly when `canCastle` holds for that side |
| KingRules.TargetsLandAtHome | src/utils/chessLogic.ts:145-174 | when every unmoved king is on column 4, every target of every piece is on the board and free of the mover's colour |
| KingRules.PathSafeSpan | src/utils/chessLogic.ts:342-348 | the squares checked by castling rule 4 are exactly the king's column through column 6, or column 2 through the king's column |
| KingRules.SafeSpanStep | src/utils/chessLogic.ts:344-348 | one more unattacked square at either end extends the checked span |
| Terminal.Scratch | src/utils/chessLogic.ts:84-97 | the side to move is flipped, the source square is empty, the target holds the moved piece when it is on the board and differs from the source, and no other square changes |
| Terminal.Checkmated | src/utils/chessLogic.ts:73-107 | (definition, no contract of its own) in check, and no target of any piece of the side to move gives a scratch state out of check; `Terminal.TerminalExclusive` relates it to stalemate |
| Terminal.Stalemated | src/utils/chessLogic.ts:109-143 | (definition, no contract of its own) not in check, and no target of any piece of the side to move gives a scratch state out of check; `Terminal.TerminalExclusive` relates it to checkmate |
| Terminal.EscapesAmongMeaning | src/utils/chessLogic.ts:82-101 | the in-order scan of a piece's targets finds an escape exactly when some target gives a scratch state not in check |
| Terminal.NoEscapeStep | src/utils/chessLogic.ts:78-103 | passing a square without an escape extends what the board scan has established |
| Terminal.NoEscapeRow | src/utils/chessLogic.ts:77-78 | finishing a row of the board scan carries over to the next row |
| Terminal.NoEscapeAll | src/utils/chessLogic.ts:77-106 | a full scan without an escape means there is none; any escape found means there is one |
| Terminal.TerminalExclusive | src/utils/chessLogic.ts:73-143 | checkmate needs check, stalemate excludes it, the two never hold together, and one holds when no piece of the side to move has a target |
| Terminal.TargetsFrame | src/utils/chessLogic.ts:145-174 | move generation depends only on the board and the side to move |
| Terminal.EscapesFrame | src/utils/chessLogic.ts:81-101 | whether a piece has an escape depends only on the board and the side to move |
| Terminal.TerminalFrame | src/utils/chessLogic.ts:56-143 | check, checkmate and stalemate depend only on the board and the side to move |
| Transition.Landed | src/utils/chessLogic.ts:368-373 | the landing piece keeps its colour and is marked moved; it keeps its kind, except that a pawn reaching row 0 or 7 becomes a queen |
| Transition.MovedBoard | src/utils/chessLogic.ts:353-374 | (definition, no contract of its own) the writes of `makeMove` in the source's order; `Transition.MovedPiece` and `Transition.MovedRook` state their result |
| Transition.Applied | src/utils/chessLogic.ts:353-395 | (definition, no contract of its own) the state `makeMove` returns; `Transition.AppliedState` states it |
| Transition.MovedPiece | src/utils/chessLogic.ts:368-374 | after a move the source square is empty, and the target holds the mover's piece, of the same colour and marked moved, a queen when a pawn reaches row 0 or 7 |
| Transition.MovedRook | src/utils/chessLogic.ts:357-366 | a two-column king move carries the rook from column 7 to `to.col - 1`, or from column 0 to `to.col + 1`, and empties the rook's square; every square no write touches is unchanged |
| Transition.AppliedState | src/utils/chessLogic.ts:376-394 | the new state has the moved board, the other side to move, no selection or valid moves, the flags equal to check, checkmate and stalemate of the new position (checkmate only with check, stalemate only without), and the settings unchanged |
| Transition.AppliedKeepsHomeKings | src/utils/chessLogic.ts:353-374 | when every unmoved king is on column 4, that still holds after any move |
| MaterialBalance.RowMaterial | src/utils/chessLogic.ts:400-406 | the sum over the first n squares of a row lies within 9n of zero |
| MaterialBalance.MaterialRows | src/utils/chessLogic.ts:399-407 | the sum over the first n rows lies within 72n of zero |
| MaterialBalance.Material | src/utils/chessLogic.ts:397-409 | the material balance lies between -576 and 576 |
| MaterialBalance.RowMaterialUpdate | src/utils/chessLogic.ts:400-406 | writing one square of a row changes the row sum by the difference of the two squares' contributions |
| MaterialBalance.MaterialRowsUpdate | src/utils/chessLogic.ts:399-407 | writing one square changes the sum over the rows containing it by the difference of the two contributions |
| MaterialBalance.MaterialPut | src/utils/chessLogic.ts:397-409 | a write changes the balance by exactly the difference of the old and new square's values; off-board writes and removing a king change nothing |
| MaterialBalance.MirrorRows | src/utils/chessLogic.ts:400-406 | two rows whose squares contribute opposite amounts have opposite sums |
| MaterialBalance.StartingMaterial | src/utils/chessLogic.ts:3-20 | the starting position has material balance 0 |
| ChessLogicPieces.CalculatePawnMoves | src/utils/chessLogic.ts:176-200 | appends exactly the pawn targets, the pushes before the captures |
| ChessLogicPieces.PawnCaptureMoves | src/utils/chessLogic.ts:191-199 | appends exactly the diagonal captures towards column - 1 and then column + 1 |
| ChessLogicPieces.StepMoves | src/utils/chessLogic.ts:212-219 | appends exactly the offset squares the piece may land on, in offset order |
| ChessLogicPieces.CalculateKnightMoves | src/utils/chessLogic.ts:202-220 | appends exactly the knight targets, in the order of the eight jumps |
| ChessLogicPieces.WalkRay | src/utils/chessLogic.ts:231-246 | the `while` walk appends exactly the ray in one direction |
| ChessLogicPieces.SlideMoves | src/utils/chessLogic.ts:230-247 | appends exactly the rays of the directions, one after another |
| ChessLogicPieces.CalculateBishopMoves | src/utils/chessLogic.ts:222-248 | appends exactly the four diagonal rays |
| ChessLogicPieces.CalculateRookMoves | src/utils/chessLogic.ts:250-276 | appends exactly the four orthogonal rays |
| ChessLogicPieces.CalculateQueenMoves | src/utils/chessLogic.ts:278-281 | appends exactly the bishop targets followed by the rook targets |
| ChessLogic.CalculateValidMoves | src/utils/chessLogic.ts:145-174 | returns exactly the targets of the piece on the square, and nothing for an empty square |
| ChessLogic.KingPrefixStep | src/utils/chessLogic.ts:287-289 | the nested offset loops visit the king offsets in the order of the eight neighbours |
| ChessLogic.KingPrefixAll | src/utils/chessLogic.ts:287-301 | visiting all eight offsets gives exactly the king's neighbour targets |
| ChessLogic.KingNeighbour | src/utils/chessLogic.ts:291-299 | one neighbour is appended exactly when it is on the board and empty or held by the other colour |
| ChessLogic.KingStepMoves | src/utils/chessLogic.ts:287-301 | the nested loops append exactly the king's neighbour targets in offset order |
| ChessLogic.CalculateKingMoves | src/utils/chessLogic.ts:283-314 | appends exactly the neighbour steps, then kingside and queenside castling when allowed |
| ChessLogic.CanCastle | src/utils/chessLogic.ts:316-351 | true exactly when the rook is an unmoved rook of the king's colour, the king is unmoved, the side to move is not in check, the squares between are empty and no square on the king's path is attacked |
| ChessLogic.PathIsClear | src/utils/chessLogic.ts:335-340 | true exactly when every square strictly between king and rook is empty |
| ChessLogic.PathIsSafe | src/utils/chessLogic.ts:342-348 | true exactly when no square from the king's column through column 6 (or 2) is attacked |
| ChessLogic.KingReaches | src/utils/chessLogic.ts:34-43 | true exactly when the target is a neighbour of the king's square |
| ChessLogic.AttacksFromSquare | src/utils/chessLogic.ts:29-49 | true exactly when a piece not of the defending colour stands there and reaches the square: a king by adjacency, any other piece through its generated moves |
| ChessLogic.IsSquareUnderAttack | src/utils/chessLogic.ts:26-54 | true exactly when some square holds such an attacker |
| ChessLogic.IsKingInCheck | src/utils/chessLogic.ts:56-71 | true exactly when the side to move has a king and its first king in row-major order is attacked |
| ChessLogic.EscapeFrom | src/utils/chessLogic.ts:81-102 | true exactly when some target of the piece gives a scratch state that is not in check |
| ChessLogic.FindEscape | src/utils/chessLogic.ts:77-106 | true exactly when some piece of the side to move has such a target |
| ChessLogic.IsCheckmate | src/utils/chessLogic.ts:73-107 | true exactly when in check and no piece has an escape |
| ChessLogic.IsStalemate | src/utils/chessLogic.ts:109-143 | true exactly when not in check and no piece has an escape |
| ChessLogic.MoveOnBoard | src/utils/chessLogic.ts:354-374 | the board writes give exactly the moved board: rook first when castling, then the placed or promoted piece, then the emptied source |
| ChessLogic.MakeMove | src/utils/chessLogic.ts:353-395 | returns exactly the applied move, whose properties `Transition.AppliedState`, `Transition.MovedPiece` and `Transition.MovedRook` state |
| ChessLogic.EvaluatePosition | src/utils/chessLogic.ts:397-409 | the accumulated score is exactly the material balance |
| Search.DepthFromLevel | src/utils/chessAI.ts:10-13 | the depth is `level + 1` or 5, never above either, and at least 1 for a non-negative level |
| Search.RowMajorConcat | src/utils/chessAI.ts:57-67 | joining two row-major lists whose sources are ordered keeps row-major order |
| Search.SquareMoves | src/utils/chessAI.ts:59-65 | a move is listed for a square exactly when the square holds a piece of the colour and the target is one of its targets; at most 56 |
| Search.SquareMovesOrder | src/utils/chessAI.ts:62-64 | a square's moves follow its targets one for one, in order |
| Search.RowMoves | src/utils/chessAI.ts:58-66 | the moves of a row's first n squares are exactly those from them, in row-major order |
| Search.MovesUpTo | src/utils/chessAI.ts:57-67 | the moves of the first n rows are exactly those from them, in row-major order |
| Search.LegalMoves | src/utils/chessAI.ts:55-69 | every enumerated move is one `makeMove` accepts; at most 3584 moves |
| Search.LegalMovesMeaning | src/utils/chessAI.ts:55-69 | a move is enumerated exactly when its source holds a piece of the colour and its target is a generated target of that square; the list is in row-major order |
| Search.CenterUpTo | src/utils/chessAI.ts:40-45 | the count over the first n centre squares lies within n of zero |
| Search.CenterControl | src/utils/chessAI.ts:35-45 | the centre count lies between -4 and 4 |
| Search.CheckTerm | src/utils/chessAI.ts:47-50 | the check term is non-zero exactly in check, negative exactly when white is to move and in check, and at most 5 in size |
| Search.Score | src/utils/chessAI.ts:15-53 | the evaluation lies strictly between the two infinity sentinels |
| Search.Children | src/utils/chessAI.ts:83-88 | one child per enumerated move, each the position `makeMove` gives |
| Search.IsLeaf | src/utils/chessAI.ts:79 | (definition, no contract of its own) the search stops at depth 0, at checkmate and at stalemate |
| Search.AlphaBeta | src/utils/chessAI.ts:71-106 | (definition, no contract of its own) the value `minimax` returns: the evaluation at a leaf, otherwise the maximizing or minimizing loop over the children one ply deeper; `SearchTheory.AlphaBetaSound` relates it to `Search.MinimaxValue` |
| Search.MaxLoop | src/utils/chessAI.ts:85-94 | (definition, no contract of its own) the maximizing loop: the running maximum and `alpha` raised by each child's score, stopping once `beta <= alpha`; `SearchTheory.MaxLoopSound` states what it computes |
| Search.MinLoop | src/utils/chessAI.ts:95-105 | (definition, no contract of its own) the minimizing loop: the running minimum and `beta` lowered by each child's score, stopping once `beta <= alpha`; `SearchTheory.MinLoopSound` states what it computes |
| Search.MinimaxValue | src/utils/chessAI.ts:71-106 | (definition, no contract of its own) the reference value: the same leaves and children as `minimax`, without pruning; `SearchTheory.MinimaxBounded` bounds it |
| Search.MaxOver | src/utils/chessAI.ts:85-94 | the plain maximum over no children is the -infinity sentinel and never below it |
| Search.MinOver | src/utils/chessAI.ts:95-105 | the plain minimum over no children is the +infinity sentinel and never above it |
| Search.RootValues | src/utils/chessAI.ts:119-121 | one value per root move: the minimax value of its child, with the other side to play |
| SearchTheory.NonTerminalHasMoves | src/utils/chessAI.ts:79-83 | a position that is neither checkmate nor stalemate has at least one move for the side to move |
| SearchTheory.LeafValue | src/utils/chessAI.ts:79-81 | at depth 0, checkmate or stalemate the search returns the evaluation, whatever the window and the side |
| SearchTheory.InnerMax | src/utils/chessAI.ts:83-94 | past the leaf test a maximizing search returns its loop over the children one ply deeper, started from the -infinity sentinel |
| SearchTheory.InnerMin | src/utils/chessAI.ts:83-105 | past the leaf test a minimizing search returns its loop over the children one ply deeper, started from the +infinity sentinel |
| SearchTheory.InnerNode | src/utils/chessAI.ts:79-105 | past the terminal test the search runs its loop over a non-empty list of children one ply deeper, and the reference takes their extreme |
| SearchTheory.MinimaxBounded | src/utils/chessAI.ts:71-106 | every minimax value lies strictly between the sentinels |
| SearchTheory.OverBounded | src/utils/chessAI.ts:85-105 | the extremes over a non-empty list of children lie strictly between the sentinels |
| SearchTheory.MaxStep | src/utils/chessAI.ts:89-92 | without a cut-off, one turn of the maximizing loop keeps its invariant relating `alpha`, `maxEval` and the true maximum |
| SearchTheory.MaxResult | src/utils/chessAI.ts:87-94 | the maximizing loop's value, after a cut-off or from the rest of the loop, is sound for the true maximum |
| SearchTheory.MinStep | src/utils/chessAI.ts:99-102 | the mirror image of `MaxStep` for `beta` and `minEval` |
| SearchTheory.MinResult | src/utils/chessAI.ts:97-104 | the mirror image of `MaxResult` |
| SearchTheory.AlphaBetaSound | src/utils/chessAI.ts:71-106 | for any window inside the sentinels, the search result equals the minimax value when that lies inside the window, and bounds it correctly from the side it falls outside |
| SearchTheory.MaxLoopSound | src/utils/chessAI.ts:85-94 | the maximizing loop with the running `alpha` and `maxEval` is sound for the maximum of what it has seen and what remains |
| SearchTheory.MinLoopSound | src/utils/chessAI.ts:95-105 | the minimizing loop with the running `beta` and `minEval` is sound for the minimum of what it has seen and what remains |
| SearchTheory.FullWindowIsMinimax | src/utils/chessAI.ts:116-121 | with the full window the search returns exactly the plain minimax value, strictly between the sentinels |
| SearchTheory.FirstBestUnique | src/utils/chessAI.ts:123-133 | at most one position of a list of values is the first best one |
| SearchTheory.FirstBestExtreme | src/utils/chessAI.ts:123-133 | the first best value is the largest of all values for white and the smallest for black |
| SearchTheory.MaxOverUpper | src/utils/chessAI.ts:85-94 | a bound on every child's value bounds their maximum |
| SearchTheory.MaxOverLower | src/utils/chessAI.ts:85-94 | the maximum is at least each child's value |
| SearchTheory.MinOverLower | src/utils/chessAI.ts:95-105 | a lower bound on every child's value bounds their minimum |
| SearchTheory.MinOverUpper | src/utils/chessAI.ts:95-105 | the minimum is at most each child's value |
| SearchTheory.MaxOfValues | src/utils/chessAI.ts:123-127 | a child value at least every other is the maximum over the children |
| SearchTheory.MinOfValues | src/utils/chessAI.ts:128-132 | a child value at most every other is the minimum over the children |
| SearchTheory.RootChoiceValue | src/utils/chessAI.ts:119-134 | the kept move's value is the maximum of the children's values for white and the minimum for black |
| SearchTheory.RootChoiceIsMinimax | src/utils/chessAI.ts:108-137 | unless the root is checkmate or stalemate, the kept move's value is the minimax value of the root one ply deeper |
| ChessAI.PushSquareMoves | src/utils/chessAI.ts:59-65 | appends exactly the moves of one square, in target order |
| ChessAI.GetAllLegalMoves | src/utils/chessAI.ts:55-69 | returns exactly the enumerated moves, whose meaning `Search.LegalMovesMeaning` states |
| ChessAI.EvaluatePosition | src/utils/chessAI.ts:15-53 | returns exactly the evaluation in tenths: ten times the material, the move-count difference, the centre count and the check term |
| ChessAI.IsLeafNode | src/utils/chessAI.ts:79 | true exactly at depth 0, checkmate or stalemate; otherwise the depth is positive |
| ChessAI.Minimax | src/utils/chessAI.ts:71-106 | returns exactly the fail-soft alpha-beta value, which `SearchTheory.AlphaBetaSound` relates to the minimax value |
| ChessAI.MaxSearch | src/utils/chessAI.ts:85-94 | the maximizing loop with its cut-off returns exactly the maximizing loop value over the children |
| ChessAI.MinSearch | src/utils/chessAI.ts:95-105 | the minimizing loop with its cut-off returns exactly the minimizing loop value over the children |
| ChessAI.RootScore | src/utils/chessAI.ts:120-121 | the score of a root move is its child's minimax value, strictly between the sentinels |
| ChessAI.RootStep | src/utils/chessAI.ts:119-134 | after each move, the kept move is the first best among those seen, and the kept score is its value |
| ChessAI.RootLoop | src/utils/chessAI.ts:114-136 | the loop keeps a move, one of the legal moves, and it is the first best one |
| ChessAI.CalculateComputerMove | src/utils/chessAI.ts:108-137 | no move exactly when the side to move has none; otherwise a legal move, the first whose value is best for the side to move |

## Left out

- The React components: rendering, click handling, the settings form and the timer-driven computer turn. They are not part of this model.
- `UNICODE_PIECES` is left out: it holds display glyphs only.
- The unused `Move` fields `piece`, `isCastling`, `isEnPassant`, `isPromotion` and `promotionType` are left out, as is the unused `score` of the player's move record.
- Floating point is not modelled.
  - Scores are integer tenths of a pawn. The weights 0.1 and 0.5 become 1 and 5, and material is multiplied by 10.
  - `-Infinity` and `Infinity` are the sentinels -1000000 and 1000000. These lie strictly outside every reachable score.
  - Rounding of sums of 0.1 is not modelled.
- The game state's `boardTheme`, `playerColor` and `computerLevel` are carried along unchanged. Only `computerLevel` is read, for the depth.
- ChessAI.CalculateComputerMove: requires `computerLevel >= 0`. For a negative level the source's `minimax` starts below depth 0 and never reaches its depth test, so its recursion ends only at a terminal position. The settings form offers levels 1 to 5.
- Squares.Put: a write to a column outside 0..7 is modelled as no write.
  - In the source it adds an element or property to the row array. No read of the engine looks at it: every read is guarded by `isValidPosition` or uses a fixed on-board square.
  - Outside the engine it can be seen. `makeMove`'s `[...row]` copy (src/utils/chessLogic.ts:354) carries the extra element forward, and the board component draws every element of a row (src/components/ChessBoard.tsx:117). The board component is not part of this model.
  - Such a write needs an unmoved king standing off column 4. `Squares.HomeKings` holds in the starting position and `Transition.AppliedKeepsHomeKings` keeps it, so no game from the starting position makes one.
  - A write to a row outside 0..7 is excluded by the precondition of `makeMove` (`Transition.MoveOk`); in the source it would throw.
- Transition.MoveOk: requires a piece on the `from` square. On an empty square the source's `makeMove` reads `piece.type` of `null` and throws a `TypeError` (src/utils/chessLogic.ts:355-358). The model has no value for that failure, so the precondition excludes it. Every caller in the source passes a square it found a piece on.
- Aliasing and in-place mutation of arrays are not modelled. Boards, move lists and states are values:
  - the `moves` array that the generators push into is threaded through as a sequence;
  - `makeMove`'s row copies are sequence updates.
- ChessAI.EvaluatePosition: reuses the material loop of `ChessLogic.EvaluatePosition` instead of repeating it. The source duplicates that loop.
- ChessLogic.FindEscape: the identical board scans of `isCheckmate` and `isStalemate` are written once.
- Inner loops and loop bodies of the source appear as separate methods, each proved against its own specification function:
  - `PathIsClear`, `PathIsSafe`, `KingReaches`, `AttacksFromSquare` and `EscapeFrom`;
  - `KingNeighbour` and `KingStepMoves`;
  - `PawnCaptureMoves`, `StepMoves`, `WalkRay` and `SlideMoves`;
  - `MoveOnBoard` and `PushSquareMoves`;
  - `IsLeafNode`, `MaxSearch` and `MinSearch`;
  - `RootScore`, `RootStep` and `RootLoop`.
- The white and black comparisons of the root loop are written once, as `Search.Better`.
- The unbounded recursion depth and running time of the search are not modelled; only their termination is.
