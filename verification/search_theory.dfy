/** What the pruned search computes: alpha-beta with a window (alpha, beta) is sound with
    respect to the plain minimax value, and with the full window it returns that value. */
module SearchTheory {
  import opened ChessTypes
  import opened Squares
  import opened Attacks
  import opened KingRules
  import opened Terminal
  import opened Transition
  import opened Search

  /** A position that is neither checkmate nor stalemate offers its side to move at least one move. */
  lemma NonTerminalHasMoves(s: GameState)
    requires !Checkmated(s) && !Stalemated(s)
    ensures LegalMoves(s, s.currentTurn) != []
  {
    TerminalExclusive(s);
    var p :| HoldsColor(s.board, p, s.currentTurn) && Targets(s, p) != [];
    LegalMovesMeaning(s, s.currentTurn);
    assert Move(p, Targets(s, p)[0]) in LegalMoves(s, s.currentTurn);
  }

  /** At an inner node the side to move has a move; the pruned search runs its loop over
      the resulting positions and the reference takes their extreme, both one ply deeper. */
  lemma InnerNode(s: GameState, depth: nat, alpha: int, beta: int, isMax: bool)
    requires !IsLeaf(s, depth)
    ensures Children(s) != []
    ensures var d := depth - 1; var kids := Children(s);
      && AlphaBeta(s, depth, alpha, beta, isMax)
           == (if isMax then MaxLoop(kids, d, alpha, beta, NEG_INF) else MinLoop(kids, d, alpha, beta, POS_INF))
      && MinimaxValue(s, depth, isMax) == (if isMax then MaxOver(kids, d) else MinOver(kids, d))
  {
    NonTerminalHasMoves(s);
  }

  /** At a leaf the pruned search returns the score. */
  lemma LeafValue(s: GameState, depth: nat, alpha: int, beta: int, isMax: bool)
    requires IsLeaf(s, depth)
    ensures AlphaBeta(s, depth, alpha, beta, isMax) == Score(s)
  {
  }

  /** At an inner node of a maximizing search, the pruned search returns the value of its
      maximizing loop over the children, searched one ply less deep. */
  lemma InnerMax(s: GameState, depth: nat, alpha: int, beta: int)
    requires !IsLeaf(s, depth)
    ensures AlphaBeta(s, depth, alpha, beta, true) == MaxLoop(Children(s), depth - 1, alpha, beta, NEG_INF)
  {
  }

  /** The minimizing counterpart of `InnerMax`. */
  lemma InnerMin(s: GameState, depth: nat, alpha: int, beta: int)
    requires !IsLeaf(s, depth)
    ensures AlphaBeta(s, depth, alpha, beta, false) == MinLoop(Children(s), depth - 1, alpha, beta, POS_INF)
  {
  }

  /** The loops' values depend on the children's depth only through its value. */
  lemma LoopDepth(kids: seq<GameState>, d: nat, e: nat, alpha: int, beta: int)
    requires d == e
    ensures MaxLoop(kids, d, alpha, beta, NEG_INF) == MaxLoop(kids, e, alpha, beta, NEG_INF)
    ensures MinLoop(kids, d, alpha, beta, POS_INF) == MinLoop(kids, e, alpha, beta, POS_INF)
  {
  }

  /** Minimax values are scores or extremes over non-empty sets of minimax values, so they
      stay strictly between the sentinels. */
  lemma {:induction false} MinimaxBounded(s: GameState, depth: nat, isMax: bool)
    ensures NEG_INF < MinimaxValue(s, depth, isMax) < POS_INF
    decreases depth, 1, 0
  {
    if !IsLeaf(s, depth) {
      var d := depth - 1;
      InnerNode(s, depth, 0, 0, isMax);
      OverBounded(Children(s), d);
    }
  }

  /** The extremes over a non-empty list of children, `d` being the children's depth. */
  lemma {:induction false} OverBounded(kids: seq<GameState>, d: nat)
    requires kids != []
    ensures NEG_INF < MaxOver(kids, d) < POS_INF
    ensures NEG_INF < MinOver(kids, d) < POS_INF
    decreases d + 1, 0, |kids|
  {
    MinimaxBounded(kids[0], d, false);
    MinimaxBounded(kids[0], d, true);
    if |kids| > 1 {
      OverBounded(kids[1..], d);
    }
  }

  /** One step of the maximizing loop, on numbers alone: `f` is the child's fail-soft value
      for the window (alpha, beta) and `v` its true value, `rest` the true maximum over the
      remaining children. Without a cut-off the loop's invariant carries over to the
      updated `alpha`, `maxEval` and true maximum. */
  lemma MaxStep(alpha0: int, alpha: int, beta: int, best: int, seen: int, f: int, v: int)
    requires NEG_INF <= alpha0 && alpha == Max(alpha0, best) && alpha < beta
    requires seen <= best && (alpha0 < best ==> seen == best)
    requires WindowSound(f, v, alpha, beta)
    ensures Max(alpha, f) < beta ==>
      && Max(alpha, f) == Max(alpha0, Max(best, f))
      && Max(seen, v) <= Max(best, f)
      && (alpha0 < Max(best, f) ==> Max(seen, v) == Max(best, f))
  {
  }

  /** The result of one step of the maximizing loop, on numbers alone: `loop` is the
      loop's value, a cut-off's `max(best, f)` or else the value `next` of the rest of the
      loop, which is sound for the true maximum of what remains. */
  lemma MaxResult(alpha0: int, alpha: int, beta: int, best: int, seen: int, f: int, v: int,
                  rest: int, next: int, loop: int)
    requires NEG_INF <= alpha0 && alpha == Max(alpha0, best) && alpha < beta
    requires seen <= best && (alpha0 < best ==> seen == best)
    requires WindowSound(f, v, alpha, beta)
    requires loop == if beta <= Max(alpha, f) then Max(best, f) else next
    requires Max(alpha, f) < beta ==> WindowSound(next, Max(Max(seen, v), rest), alpha0, beta)
    requires rest >= NEG_INF
    ensures WindowSound(loop, Max(seen, Max(v, rest)), alpha0, beta)
  {
  }

  /** The mirror image of `MaxStep` for the minimizing loop. */
  lemma MinStep(beta0: int, beta: int, alpha: int, best: int, seen: int, f: int, v: int)
    requires beta0 <= POS_INF && beta == Min(beta0, best) && alpha < beta
    requires best <= seen && (best < beta0 ==> seen == best)
    requires WindowSound(f, v, alpha, beta)
    ensures alpha < Min(beta, f) ==>
      && Min(beta, f) == Min(beta0, Min(best, f))
      && Min(best, f) <= Min(seen, v)
      && (Min(best, f) < beta0 ==> Min(seen, v) == Min(best, f))
  {
  }

  /** The mirror image of `MaxResult` for the minimizing loop. */
  lemma MinResult(beta0: int, beta: int, alpha: int, best: int, seen: int, f: int, v: int,
                  rest: int, next: int, loop: int)
    requires beta0 <= POS_INF && beta == Min(beta0, best) && alpha < beta
    requires best <= seen && (best < beta0 ==> seen == best)
    requires WindowSound(f, v, alpha, beta)
    requires loop == if Min(beta, f) <= alpha then Min(best, f) else next
    requires alpha < Min(beta, f) ==> WindowSound(next, Min(Min(seen, v), rest), alpha, beta0)
    requires rest <= POS_INF
    ensures WindowSound(loop, Min(seen, Min(v, rest)), alpha, beta0)
  {
  }

  /** Fail-soft alpha-beta (Knuth and Moore): with any window alpha < beta between the
      sentinels, the result is exact inside the window and a correct bound outside it. */
  lemma {:induction false} AlphaBetaSound(s: GameState, depth: nat, alpha: int, beta: int, isMax: bool)
    requires NEG_INF <= alpha < beta <= POS_INF
    ensures WindowSound(AlphaBeta(s, depth, alpha, beta, isMax), MinimaxValue(s, depth, isMax), alpha, beta)
    decreases depth, 1, 0
  {
    if !IsLeaf(s, depth) {
      var d := depth - 1;
      InnerNode(s, depth, alpha, beta, isMax);
      if isMax {
        MaxLoopSound(Children(s), d, alpha, alpha, beta, NEG_INF, NEG_INF);
      } else {
        MinLoopSound(Children(s), d, beta, beta, alpha, POS_INF, POS_INF);
      }
    }
  }

  /** The maximizing loop, `d` being the children's depth. `alpha0` is the window's lower
      end on entry, `alpha` the running one, `best` the running `maxEval` and `seen` the true
      maximum over the children already examined. Until a cut-off `alpha` is
      `max(alpha0, best)`, `seen` is at most `best`, and they agree as soon as `best`
      exceeds `alpha0`. */
  lemma {:induction false} MaxLoopSound(kids: seq<GameState>, d: nat,
                                        alpha0: int, alpha: int, beta: int, best: int, seen: int)
    requires NEG_INF <= alpha0 && alpha == Max(alpha0, best) && alpha < beta <= POS_INF
    requires NEG_INF <= seen <= best && (alpha0 < best ==> seen == best)
    ensures WindowSound(MaxLoop(kids, d, alpha, beta, best), Max(seen, MaxOver(kids, d)), alpha0, beta)
    decreases d + 1, 0, |kids|
  {
    if kids != [] {
      var f := AlphaBeta(kids[0], d, alpha, beta, false);
      var v := MinimaxValue(kids[0], d, false);
      var rest := MaxOver(kids[1..], d);
      var next := MaxLoop(kids[1..], d, Max(alpha, f), beta, Max(best, f));
      AlphaBetaSound(kids[0], d, alpha, beta, false);
      MaxStep(alpha0, alpha, beta, best, seen, f, v);
      if Max(alpha, f) < beta {
        MaxLoopSound(kids[1..], d, alpha0, Max(alpha, f), beta, Max(best, f), Max(seen, v));
      }
      MaxResult(alpha0, alpha, beta, best, seen, f, v, rest, next, MaxLoop(kids, d, alpha, beta, best));
    }
  }

  /** The minimizing loop, the mirror image of `MaxLoopSound`. */
  lemma {:induction false} MinLoopSound(kids: seq<GameState>, d: nat,
                                        beta0: int, beta: int, alpha: int, best: int, seen: int)
    requires beta0 <= POS_INF && beta == Min(beta0, best) && NEG_INF <= alpha < beta
    requires best <= seen <= POS_INF && (best < beta0 ==> seen == best)
    ensures WindowSound(MinLoop(kids, d, alpha, beta, best), Min(seen, MinOver(kids, d)), alpha, beta0)
    decreases d + 1, 0, |kids|
  {
    if kids != [] {
      var f := AlphaBeta(kids[0], d, alpha, beta, true);
      var v := MinimaxValue(kids[0], d, true);
      var rest := MinOver(kids[1..], d);
      var next := MinLoop(kids[1..], d, alpha, Min(beta, f), Min(best, f));
      AlphaBetaSound(kids[0], d, alpha, beta, true);
      MinStep(beta0, beta, alpha, best, seen, f, v);
      if alpha < Min(beta, f) {
        MinLoopSound(kids[1..], d, beta0, Min(beta, f), alpha, Min(best, f), Min(seen, v));
      }
      MinResult(beta0, beta, alpha, best, seen, f, v, rest, next, MinLoop(kids, d, alpha, beta, best));
    }
  }

  /** With the full window, as the computer player calls it, the pruned search returns the
      plain minimax value, which lies strictly between the sentinels. */
  lemma FullWindowIsMinimax(s: GameState, depth: nat, isMax: bool)
    ensures AlphaBeta(s, depth, NEG_INF, POS_INF, isMax) == MinimaxValue(s, depth, isMax)
    ensures NEG_INF < AlphaBeta(s, depth, NEG_INF, POS_INF, isMax) < POS_INF
  {
    MinimaxBounded(s, depth, isMax);
    AlphaBetaSound(s, depth, NEG_INF, POS_INF, isMax);
  }

  /** After the first value the root loop keeps the first move. */
  lemma FirstBestStart(vals: seq<int>, maximize: bool)
    requires |vals| > 0
    ensures FirstBestAmong(vals, 0, 1, maximize)
  {
  }

  /** One step of the root loop: the `n`-th value replaces the kept move exactly when it is
      strictly better. */
  lemma FirstBestStep(vals: seq<int>, k: int, n: int, maximize: bool)
    requires FirstBestAmong(vals, k, n, maximize) && n < |vals|
    ensures Better(vals[n], vals[k], maximize) ==> FirstBestAmong(vals, n, n + 1, maximize)
    ensures !Better(vals[n], vals[k], maximize) ==> FirstBestAmong(vals, k, n + 1, maximize)
  {
  }

  /** The root values depend on the search depth only through its value. */
  lemma RootDepth(s: GameState, d: nat, e: nat)
    requires d == e
    ensures RootValues(s, d) == RootValues(s, e)
  {
  }

  /** Of a list of values at most one position is the first best one, so the root loop's
      choice is determined by the values. */
  lemma FirstBestUnique(vals: seq<int>, k1: int, k2: int, maximize: bool)
    requires IsFirstBest(vals, k1, maximize) && IsFirstBest(vals, k2, maximize)
    ensures k1 == k2
  {
    var v1, v2 := vals[k1], vals[k2];
    assert k1 < k2 ==> Better(v2, v1, maximize);
    assert k2 < k1 ==> Better(v1, v2, maximize);
  }

  /** The first best value is an extreme of the list: its maximum when maximizing, its
      minimum otherwise. */
  lemma FirstBestExtreme(vals: seq<int>, k: int, maximize: bool)
    requires IsFirstBest(vals, k, maximize)
    ensures forall j :: 0 <= j < |vals| ==> if maximize then vals[j] <= vals[k] else vals[k] <= vals[j]
  {
    forall j | 0 <= j < |vals| ensures if maximize then vals[j] <= vals[k] else vals[k] <= vals[j] {
      if j < k {
        assert Better(vals[k], vals[j], maximize);
      } else if k < j {
        assert !Better(vals[j], vals[k], maximize);
      }
    }
  }

  /** No child of a maximizing node is worth more than its maximum. */
  lemma {:induction false} MaxOverUpper(kids: seq<GameState>, d: nat, v: int)
    requires NEG_INF <= v
    requires forall j :: 0 <= j < |kids| ==> MinimaxValue(kids[j], d, false) <= v
    ensures MaxOver(kids, d) <= v
    decreases |kids|
  {
    if kids != [] {
      assert forall j :: 0 <= j < |kids[1..]| ==> kids[1..][j] == kids[j + 1];
      MaxOverUpper(kids[1..], d, v);
    }
  }

  /** The maximum over the children is at least the value of each child. */
  lemma {:induction false} MaxOverLower(kids: seq<GameState>, d: nat, x: GameState)
    requires x in kids
    ensures MinimaxValue(x, d, false) <= MaxOver(kids, d)
    decreases |kids|
  {
    if x != kids[0] {
      MaxOverLower(kids[1..], d, x);
    }
  }

  /** No child of a minimizing node is worth less than its minimum. */
  lemma {:induction false} MinOverLower(kids: seq<GameState>, d: nat, v: int)
    requires v <= POS_INF
    requires forall j :: 0 <= j < |kids| ==> v <= MinimaxValue(kids[j], d, true)
    ensures v <= MinOver(kids, d)
    decreases |kids|
  {
    if kids != [] {
      assert forall j :: 0 <= j < |kids[1..]| ==> kids[1..][j] == kids[j + 1];
      MinOverLower(kids[1..], d, v);
    }
  }

  /** The minimum over the children is at most the value of each child. */
  lemma {:induction false} MinOverUpper(kids: seq<GameState>, d: nat, x: GameState)
    requires x in kids
    ensures MinOver(kids, d) <= MinimaxValue(x, d, true)
    decreases |kids|
  {
    if x != kids[0] {
      MinOverUpper(kids[1..], d, x);
    }
  }

  /** A child value at least as large as every other one is the maximum over the children. */
  lemma MaxOfValues(kids: seq<GameState>, d: nat, vals: seq<int>, k: int)
    requires |vals| == |kids| && 0 <= k < |kids|
    requires forall j :: 0 <= j < |kids| ==> vals[j] == MinimaxValue(kids[j], d, false)
    requires forall j :: 0 <= j < |vals| ==> vals[j] <= vals[k]
    ensures vals[k] == MaxOver(kids, d)
  {
    forall j | 0 <= j < |kids| ensures MinimaxValue(kids[j], d, false) <= vals[k] {
      assert vals[j] == MinimaxValue(kids[j], d, false);
    }
    MinimaxBounded(kids[k], d, false);
    MaxOverUpper(kids, d, vals[k]);
    MaxOverLower(kids, d, kids[k]);
  }

  /** A child value at most as large as every other one is the minimum over the children. */
  lemma MinOfValues(kids: seq<GameState>, d: nat, vals: seq<int>, k: int)
    requires |vals| == |kids| && 0 <= k < |kids|
    requires forall j :: 0 <= j < |kids| ==> vals[j] == MinimaxValue(kids[j], d, true)
    requires forall j :: 0 <= j < |vals| ==> vals[k] <= vals[j]
    ensures vals[k] == MinOver(kids, d)
  {
    forall j | 0 <= j < |kids| ensures vals[k] <= MinimaxValue(kids[j], d, true) {
      assert vals[j] == MinimaxValue(kids[j], d, true);
    }
    MinimaxBounded(kids[k], d, true);
    MinOverLower(kids, d, vals[k]);
    MinOverUpper(kids, d, kids[k]);
  }

  /** The root loop's choice attains the extreme of the children's values: their maximum
      when white is to move, their minimum when black is. */
  lemma RootChoiceValue(s: GameState, d: nat, k: int)
    requires IsFirstBest(RootValues(s, d), k, s.currentTurn == White)
    ensures s.currentTurn == White ==> RootValues(s, d)[k] == MaxOver(Children(s), d)
    ensures s.currentTurn == Black ==> RootValues(s, d)[k] == MinOver(Children(s), d)
  {
    var vals, kids := RootValues(s, d), Children(s);
    FirstBestExtreme(vals, k, s.currentTurn == White);
    if s.currentTurn == White {
      MaxOfValues(kids, d, vals, k);
    } else {
      MinOfValues(kids, d, vals, k);
    }
  }

  /** Unless the root is checkmate or stalemate, the move the computer keeps is worth
      exactly the minimax value of the root searched one ply deeper than its children. */
  lemma RootChoiceIsMinimax(s: GameState, d: nat, k: int)
    requires !Checkmated(s) && !Stalemated(s)
    requires IsFirstBest(RootValues(s, d), k, s.currentTurn == White)
    ensures RootValues(s, d)[k] == MinimaxValue(s, d + 1, s.currentTurn == White)
  {
    RootChoiceValue(s, d, k);
    assert !IsLeaf(s, d + 1);
  }
}
