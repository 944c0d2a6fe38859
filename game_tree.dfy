/**
 * The depth-bounded searches of src/logic/ai.ts (minimax and alphabeta) over any game given by
 * its move list, the position after a move and the evaluation of a position. Scores are
 * extended integers, so the -Infinity and Infinity the loops start from are exact.
 */
module GameTree {

  /** A score: -Infinity, a finite number, or Infinity. */
  datatype Value = NegInf | Fin(n: int) | PosInf

  predicate Le(a: Value, b: Value) {
    a.NegInf? || b.PosInf? || (a.Fin? && b.Fin? && a.n <= b.n)
  }

  predicate Lt(a: Value, b: Value) {
    !Le(b, a)
  }

  /** Proof helper, not a property of the search: the order on extended scores is transitive. */
  lemma LeTrans(a: Value, b: Value, c: Value)
    requires Le(a, b) && Le(b, c)
    ensures Le(a, c)
  {
  }

  /** Math.max on scores. */
  function Max(a: Value, b: Value): (m: Value)
    ensures Le(a, m) && Le(b, m) && (m == a || m == b)
  {
    if Le(a, b) then b else a
  }

  /** Math.min on scores. */
  function Min(a: Value, b: Value): (m: Value)
    ensures Le(m, a) && Le(m, b) && (m == a || m == b)
  {
    if Le(a, b) then a else b
  }

  /**
   * A game as the searches see it: the moves of the side to move in a position (in order),
   * the position after a move (on a clone), and the static evaluation of a position.
   */
  datatype Game<!S, !M> = Game(moves: S -> seq<M>, child: (S, M) -> S, eval: S -> int)

  // ---------------------------------------------------------------- minimax

  /** minimax(engine, depth, maximizing): the evaluation at depth 0 or without moves, else the best child. */
  function Minimax<S, M>(g: Game<S, M>, s: S, depth: nat, maximizing: bool): Value
    decreases depth, 1
  {
    var moves := g.moves(s);
    if depth == 0 || |moves| == 0 then Fin(g.eval(s))
    else MinimaxLoop(g, s, moves, 0, depth, maximizing, if maximizing then NegInf else PosInf)
  }

  /** The loop of minimax from the i-th move on, with acc the maxEval (or minEval) so far. */
  function MinimaxLoop<S, M>(g: Game<S, M>, s: S, moves: seq<M>, i: nat, depth: nat, maximizing: bool, acc: Value): Value
    requires depth > 0 && i <= |moves|
    decreases depth, 0, |moves| - i
  {
    if i == |moves| then acc
    else
      var v := Minimax(g, g.child(s, moves[i]), depth - 1, !maximizing);
      MinimaxLoop(g, s, moves, i + 1, depth, maximizing, if maximizing then Max(acc, v) else Min(acc, v))
  }

  /** The minimax value of the child reached by the k-th move. */
  function ChildValue<S, M>(g: Game<S, M>, s: S, moves: seq<M>, k: nat, depth: nat, maximizing: bool): Value
    requires depth > 0 && k < |moves|
  {
    Minimax(g, g.child(s, moves[k]), depth - 1, !maximizing)
  }

  /** One round of the minimax loop folds the i-th child's value into acc. */
  lemma MinimaxLoopStep<S, M>(g: Game<S, M>, s: S, moves: seq<M>, i: nat, depth: nat, maximizing: bool, acc: Value)
    requires depth > 0 && i < |moves|
    ensures var c := ChildValue(g, s, moves, i, depth, maximizing);
      MinimaxLoop(g, s, moves, i, depth, maximizing, acc)
        == MinimaxLoop(g, s, moves, i + 1, depth, maximizing, if maximizing then Max(acc, c) else Min(acc, c))
  {
  }

  /**
   * The loop returns the best of acc and the children from i on: at least (at most, when
   * minimizing) each of them, and equal to acc or to one of them.
   */
  lemma {:induction false} MinimaxLoopBest<S, M>(g: Game<S, M>, s: S, moves: seq<M>, i: nat, depth: nat, maximizing: bool, acc: Value)
    requires depth > 0 && i <= |moves|
    ensures var v := MinimaxLoop(g, s, moves, i, depth, maximizing, acc);
      && (maximizing ==> Le(acc, v) && forall k :: i <= k < |moves| ==> Le(ChildValue(g, s, moves, k, depth, maximizing), v))
      && (!maximizing ==> Le(v, acc) && forall k :: i <= k < |moves| ==> Le(v, ChildValue(g, s, moves, k, depth, maximizing)))
      && (v == acc || exists k :: i <= k < |moves| && v == ChildValue(g, s, moves, k, depth, maximizing))
    decreases |moves| - i
  {
    if i < |moves| {
      var c := ChildValue(g, s, moves, i, depth, maximizing);
      var acc' := if maximizing then Max(acc, c) else Min(acc, c);
      MinimaxLoopBest(g, s, moves, i + 1, depth, maximizing, acc');
      var v := MinimaxLoop(g, s, moves, i + 1, depth, maximizing, acc');
      assert MinimaxLoop(g, s, moves, i, depth, maximizing, acc) == v;
      if maximizing {
        LeTrans(acc, acc', v);
        LeTrans(c, acc', v);
      } else {
        LeTrans(v, acc', acc);
        LeTrans(v, acc', c);
      }
    }
  }

  /**
   * Away from the leaves a maximizing node is the largest of its children and a minimizing node
   * the smallest, attained by some move.
   */
  lemma MinimaxBest<S, M>(g: Game<S, M>, s: S, depth: nat, maximizing: bool)
    requires depth > 0 && |g.moves(s)| > 0
    ensures var moves := g.moves(s);
      var v := Minimax(g, s, depth, maximizing);
      && (forall k :: 0 <= k < |moves| ==>
            if maximizing then Le(ChildValue(g, s, moves, k, depth, maximizing), v)
            else Le(v, ChildValue(g, s, moves, k, depth, maximizing)))
      && (exists k :: 0 <= k < |moves| && v == ChildValue(g, s, moves, k, depth, maximizing))
  {
    var moves := g.moves(s);
    MinimaxLoopBest(g, s, moves, 0, depth, maximizing, if maximizing then NegInf else PosInf);
    var v := Minimax(g, s, depth, maximizing);
    if v == (if maximizing then NegInf else PosInf) {
      assert v == ChildValue(g, s, moves, 0, depth, maximizing);
    }
  }

  /** MinimaxBest stated over the moves themselves rather than their indices. */
  lemma MinimaxBestMove<S, M>(g: Game<S, M>, s: S, depth: nat, maximizing: bool)
    requires depth > 0 && |g.moves(s)| > 0
    ensures var v := Minimax(g, s, depth, maximizing);
      && (forall m :: m in g.moves(s) ==>
            if maximizing then Le(Minimax(g, g.child(s, m), depth - 1, !maximizing), v)
            else Le(v, Minimax(g, g.child(s, m), depth - 1, !maximizing)))
      && (exists m :: m in g.moves(s) && v == Minimax(g, g.child(s, m), depth - 1, !maximizing))
  {
    var moves := g.moves(s);
    MinimaxBest(g, s, depth, maximizing);
    forall m | m in moves
      ensures var v := Minimax(g, s, depth, maximizing);
        if maximizing then Le(Minimax(g, g.child(s, m), depth - 1, !maximizing), v)
        else Le(v, Minimax(g, g.child(s, m), depth - 1, !maximizing))
    {
      var k :| 0 <= k < |moves| && moves[k] == m;
      assert ChildValue(g, s, moves, k, depth, maximizing) == Minimax(g, g.child(s, m), depth - 1, !maximizing);
    }
    var k :| 0 <= k < |moves| && Minimax(g, s, depth, maximizing) == ChildValue(g, s, moves, k, depth, maximizing);
    assert moves[k] in moves;
  }

  /** minimax never returns -Infinity or Infinity. */
  lemma {:induction false} MinimaxFinite<S, M>(g: Game<S, M>, s: S, depth: nat, maximizing: bool)
    ensures Minimax(g, s, depth, maximizing).Fin?
    decreases depth
  {
    var moves := g.moves(s);
    if depth > 0 && |moves| > 0 {
      MinimaxBest(g, s, depth, maximizing);
      var k :| 0 <= k < |moves| && Minimax(g, s, depth, maximizing) == ChildValue(g, s, moves, k, depth, maximizing);
      MinimaxFinite(g, g.child(s, moves[k]), depth - 1, !maximizing);
    }
  }

  // ---------------------------------------------------------------- alphabeta

  /** alphabeta(engine, depth, alpha, beta, maximizing). */
  function AlphaBeta<S, M>(g: Game<S, M>, s: S, depth: nat, alpha: Value, beta: Value, maximizing: bool): Value
    decreases depth, 1
  {
    var moves := g.moves(s);
    if depth == 0 || |moves| == 0 then Fin(g.eval(s))
    else if maximizing then MaxLoop(g, s, moves, 0, depth, alpha, beta, NegInf)
    else MinLoop(g, s, moves, 0, depth, alpha, beta, PosInf)
  }

  /** The maximizing loop of alphabeta from the i-th move on; it stops once alpha >= beta. */
  function MaxLoop<S, M>(g: Game<S, M>, s: S, moves: seq<M>, i: nat, depth: nat, alpha: Value, beta: Value, value: Value): Value
    requires depth > 0 && i <= |moves|
    decreases depth, 0, |moves| - i
  {
    if i == |moves| then value
    else
      var value' := Max(value, AlphaBeta(g, g.child(s, moves[i]), depth - 1, alpha, beta, false));
      var alpha' := Max(alpha, value');
      if Le(beta, alpha') then value' else MaxLoop(g, s, moves, i + 1, depth, alpha', beta, value')
  }

  /** The minimizing loop of alphabeta from the i-th move on; it stops once beta <= alpha. */
  function MinLoop<S, M>(g: Game<S, M>, s: S, moves: seq<M>, i: nat, depth: nat, alpha: Value, beta: Value, value: Value): Value
    requires depth > 0 && i <= |moves|
    decreases depth, 0, |moves| - i
  {
    if i == |moves| then value
    else
      var value' := Min(value, AlphaBeta(g, g.child(s, moves[i]), depth - 1, alpha, beta, true));
      var beta' := Min(beta, value');
      if Le(beta', alpha) then value' else MinLoop(g, s, moves, i + 1, depth, alpha, beta', value')
  }

  /** What a search with window (alpha, beta) returning v promises about the true value m. */
  predicate FailSoft(alpha: Value, beta: Value, v: Value, m: Value) {
    && (Lt(alpha, v) && Lt(v, beta) ==> v == m)
    && (Le(v, alpha) ==> Le(m, v))
    && (Le(beta, v) ==> Le(v, m))
  }

  /**
   * alphabeta is a fail-soft search: inside the window it returns the minimax value, a result
   * at or below alpha bounds the minimax value from above, one at or above beta from below.
   */
  lemma {:induction false} AlphaBetaFailSoft<S, M>(g: Game<S, M>, s: S, depth: nat, alpha: Value, beta: Value, maximizing: bool)
    requires Lt(alpha, beta)
    ensures FailSoft(alpha, beta, AlphaBeta(g, s, depth, alpha, beta, maximizing), Minimax(g, s, depth, maximizing))
    decreases depth, 1
  {
    var moves := g.moves(s);
    if depth > 0 && |moves| > 0 {
      if maximizing {
        MaxLoopFailSoft(g, s, moves, 0, depth, alpha, alpha, beta, NegInf, NegInf);
      } else {
        MinLoopFailSoft(g, s, moves, 0, depth, alpha, beta, beta, PosInf, PosInf);
      }
    }
  }

  /**
   * The maximizing loop against the minimax loop: alpha is alpha0 raised to the running value,
   * the running value bounds the true maximum so far, and equals it once above alpha0.
   */
  lemma {:induction false} MaxLoopFailSoft<S, M>(g: Game<S, M>, s: S, moves: seq<M>, i: nat, depth: nat,
                                                 alpha0: Value, alpha: Value, beta: Value, value: Value, acc: Value)
    requires depth > 0 && i <= |moves|
    requires Lt(alpha, beta) && alpha == Max(alpha0, value)
    requires Le(acc, value) && (Lt(alpha0, value) ==> value == acc)
    ensures FailSoft(alpha0, beta, MaxLoop(g, s, moves, i, depth, alpha, beta, value), MinimaxLoop(g, s, moves, i, depth, true, acc))
    decreases depth, 0, |moves| - i
  {
    if i < |moves| {
      var c := g.child(s, moves[i]);
      AlphaBetaFailSoft(g, c, depth - 1, alpha, beta, false);
      var cv := AlphaBeta(g, c, depth - 1, alpha, beta, false);
      var cm := Minimax(g, c, depth - 1, false);
      var value' := Max(value, cv);
      var alpha' := Max(alpha, value');
      var acc' := Max(acc, cm);
      if Le(beta, alpha') {
        MinimaxLoopBest(g, s, moves, i + 1, depth, true, acc');
      } else {
        MaxLoopFailSoft(g, s, moves, i + 1, depth, alpha0, alpha', beta, value', acc');
      }
    }
  }

  /** The minimizing loop against the minimax loop, mirrored. */
  lemma {:induction false} MinLoopFailSoft<S, M>(g: Game<S, M>, s: S, moves: seq<M>, i: nat, depth: nat,
                                                 alpha: Value, beta0: Value, beta: Value, value: Value, acc: Value)
    requires depth > 0 && i <= |moves|
    requires Lt(alpha, beta) && beta == Min(beta0, value)
    requires Le(value, acc) && (Lt(value, beta0) ==> value == acc)
    ensures FailSoft(alpha, beta0, MinLoop(g, s, moves, i, depth, alpha, beta, value), MinimaxLoop(g, s, moves, i, depth, false, acc))
    decreases depth, 0, |moves| - i
  {
    if i < |moves| {
      var c := g.child(s, moves[i]);
      AlphaBetaFailSoft(g, c, depth - 1, alpha, beta, true);
      var cv := AlphaBeta(g, c, depth - 1, alpha, beta, true);
      var cm := Minimax(g, c, depth - 1, true);
      var value' := Min(value, cv);
      var beta' := Min(beta, value');
      var acc' := Min(acc, cm);
      if Le(beta', alpha) {
        MinimaxLoopBest(g, s, moves, i + 1, depth, false, acc');
      } else {
        MinLoopFailSoft(g, s, moves, i + 1, depth, alpha, beta0, beta', value', acc');
      }
    }
  }

  /** With the full window (-Infinity, Infinity), alphabeta returns exactly the minimax value. */
  lemma AlphaBetaIsMinimax<S, M>(g: Game<S, M>, s: S, depth: nat, maximizing: bool)
    ensures AlphaBeta(g, s, depth, NegInf, PosInf, maximizing) == Minimax(g, s, depth, maximizing)
  {
    AlphaBetaFailSoft(g, s, depth, NegInf, PosInf, maximizing);
  }
}
