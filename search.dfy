/**
 * The chess side of the search of src/logic/ai.ts as functions of an engine snapshot:
 * getAllLegalMoves, evaluateBoard (in tenths of a pawn), and the game minimax and alphabeta
 * search on a clone.
 */
module Search {
  import opened Wrappers
  import opened Pieces
  import opened MoveGen
  import opened GameRules
  import opened RulesFacts
  import opened GameTree

  // ---------------------------------------------------------------- getAllLegalMoves

  /** The moves pushed for one piece: `from` paired with each of its targets, in order. */
  function Targets(from: Pos, tos: seq<Pos>): (r: seq<Move>)
    ensures |r| == |tos|
    ensures forall m :: m in r ==> m.from == from && m.to in tos
    decreases |tos|
  {
    if tos == [] then [] else Targets(from, tos[..|tos| - 1]) + [Move(from, tos[|tos| - 1])]
  }

  lemma {:induction false} TargetsIff(from: Pos, tos: seq<Pos>, m: Move)
    ensures m in Targets(from, tos) <==> m.from == from && m.to in tos
    decreases |tos|
  {
    if tos != [] {
      var n := |tos| - 1;
      TargetsIff(from, tos[..n], m);
      assert tos == tos[..n] + [tos[n]];
    }
  }

  /** The legal moves of the pieces of `color` on the squares at or after (r, c), in row-major order. */
  function MovesFrom(s: State, color: Color, r: int, c: int): (ms: seq<Move>)
    requires WellFormed(s) && 0 <= r <= 8 && 0 <= c <= 8
    ensures forall m :: m in ms ==> InBounds(m.from) && InBounds(m.to)
    decreases 8 - r, 8 - c
  {
    if r == 8 then []
    else if c == 8 then MovesFrom(s, color, r + 1, 0)
    else
      (if HasColor(s.board[r][c], color) then Targets(Pos(r, c), LegalMoves(s, Pos(r, c))) else [])
      + MovesFrom(s, color, r, c + 1)
  }

  /** getAllLegalMoves: every legal move of the side to move, in the order the scan finds them. */
  function AllLegalMoves(s: State): (ms: seq<Move>)
    requires WellFormed(s)
    ensures forall m :: m in ms ==> InBounds(m.from) && InBounds(m.to)
  {
    MovesFrom(s, s.turn, 0, 0)
  }

  lemma {:induction false} MovesFromIff(s: State, color: Color, r: int, c: int, m: Move)
    requires WellFormed(s) && 0 <= r <= 8 && 0 <= c <= 8
    ensures m in MovesFrom(s, color, r, c) <==>
      AtOrAfter(r, c, m.from.row, m.from.col) && HasColor(At(s.board, m.from), color) && m.to in LegalMoves(s, m.from)
    decreases 8 - r, 8 - c
  {
    if r == 8 {
    } else if c == 8 {
      MovesFromIff(s, color, r + 1, 0, m);
    } else {
      MovesFromSquare(s, color, r, c, m);
      MovesFromIff(s, color, r, c + 1, m);
      assert AtOrAfter(r, c, m.from.row, m.from.col) <==> m.from == Pos(r, c) || AtOrAfter(r, c + 1, m.from.row, m.from.col);
    }
  }

  /** Proof helper: one square of the scan contributes exactly its own legal moves. */
  lemma MovesFromSquare(s: State, color: Color, r: int, c: int, m: Move)
    requires WellFormed(s) && 0 <= r < 8 && 0 <= c < 8
    ensures m in MovesFrom(s, color, r, c) <==>
      (m.from == Pos(r, c) && HasColor(s.board[r][c], color) && m.to in LegalMoves(s, Pos(r, c)))
      || m in MovesFrom(s, color, r, c + 1)
  {
    TargetsIff(Pos(r, c), LegalMoves(s, Pos(r, c)), m);
  }

  /** A move is listed exactly when it starts on a piece of the side to move and its target is legal. */
  lemma AllLegalMovesIff(s: State, m: Move)
    requires WellFormed(s)
    ensures m in AllLegalMoves(s) <==>
      InBounds(m.from) && HasColor(At(s.board, m.from), s.turn) && m.to in LegalMoves(s, m.from)
  {
    MovesFromIff(s, s.turn, 0, 0, m);
  }

  /** The list is empty exactly when hasAnyLegalMove is false for the side to move. */
  lemma NoMovesIff(s: State)
    requires WellFormed(s)
    ensures AllLegalMoves(s) == [] <==> !HasLegalMove(s, s.turn)
  {
    if HasLegalMove(s, s.turn) {
      var r, c :| 0 <= r < 8 && 0 <= c < 8 && MovableFrom(s, s.turn, r, c);
      var m := Move(Pos(r, c), LegalMoves(s, Pos(r, c))[0]);
      AllLegalMovesIff(s, m);
    }
    if AllLegalMoves(s) != [] {
      var m := AllLegalMoves(s)[0];
      AllLegalMovesIff(s, m);
      assert MovableFrom(s, s.turn, m.from.row, m.from.col);
    }
  }

  lemma {:induction false} MovesFromIgnoreTurn(s: State, t: Color, color: Color, r: int, c: int)
    requires WellFormed(s) && 0 <= r <= 8 && 0 <= c <= 8
    ensures MovesFrom(s.(turn := t), color, r, c) == MovesFrom(s, color, r, c)
    decreases 8 - r, 8 - c
  {
    if r == 8 {
    } else if c == 8 {
      MovesFromIgnoreTurn(s, t, color, r + 1, 0);
    } else {
      MovesFromIgnoreTurn(s, t, color, r, c + 1);
      LegalMovesIgnoreTurn(s, t, Pos(r, c));
    }
  }

  // ---------------------------------------------------------------- evaluateBoard

  /** pieceValues, in tenths of a pawn. */
  function PieceValue(k: Kind): nat {
    match k
    case Pawn => 10
    case Knight => 30
    case Bishop => 30
    case Rook => 50
    case Queen => 90
    case King => 1000
  }

  /** The score of a mated side to move: 10000 pawns. */
  const MateScore: int := 100000

  /** The running totals of the board loop of evaluateBoard. */
  datatype Tally = Tally(material: int, pieces: nat, enemyKing: Option<Pos>)

  /** One square of the loop: a piece adds its value (own) or subtracts it (enemy); an enemy king is remembered. */
  function CountSquare(t: Tally, sq: Square, ai: Color, p: Pos): Tally {
    match sq
    case None => t
    case Some(pc) =>
      Tally(t.material + (if pc.color == ai then PieceValue(pc.kind) as int else -(PieceValue(pc.kind) as int)),
            t.pieces + 1,
            if pc.kind == King && pc.color != ai then Some(p) else t.enemyKing)
  }

  /** The square visited k-th by the row-major loop. */
  function SquareAt(k: int): (p: Pos)
    requires 0 <= k < 64
    ensures InBounds(p)
  {
    Pos(k / 8, k % 8)
  }

  /** The totals after the first k squares of the row-major loop. */
  function TallyOf(b: Board, ai: Color, k: int): Tally
    requires IsBoard(b) && 0 <= k <= 64
    decreases k
  {
    if k == 0 then Tally(0, 0, None)
    else CountSquare(TallyOf(b, ai, k - 1), At(b, SquareAt(k - 1)), ai, SquareAt(k - 1))
  }

  /** Material is zero-sum: what counts for one colour counts against the other. */
  lemma {:induction false} MaterialZeroSum(b: Board, k: int)
    requires IsBoard(b) && 0 <= k <= 64
    ensures TallyOf(b, White, k).material == -TallyOf(b, Black, k).material
    ensures TallyOf(b, White, k).pieces == TallyOf(b, Black, k).pieces
    decreases k
  {
    if k > 0 {
      MaterialZeroSum(b, k - 1);
    }
  }

  /**
   * The remembered enemy king is the last one the loop met: none when the first k squares hold
   * no enemy king, otherwise an enemy king with no other enemy king after it.
   */
  lemma {:induction false} LastEnemyKing(b: Board, ai: Color, k: int)
    requires IsBoard(b) && 0 <= k <= 64
    ensures var e := TallyOf(b, ai, k).enemyKing;
      && (e.None? <==> forall i :: 0 <= i < k ==> !Holds(At(b, SquareAt(i)), King, Opponent(ai)))
      && (e.Some? ==> exists i :: 0 <= i < k && e.value == SquareAt(i) && Holds(At(b, SquareAt(i)), King, Opponent(ai))
                        && forall j :: i < j < k ==> !Holds(At(b, SquareAt(j)), King, Opponent(ai)))
    decreases k
  {
    if k > 0 {
      LastEnemyKing(b, ai, k - 1);
      var e := TallyOf(b, ai, k).enemyKing;
      if Holds(At(b, SquareAt(k - 1)), King, Opponent(ai)) {
        assert e == Some(SquareAt(k - 1));
      } else {
        assert e == TallyOf(b, ai, k - 1).enemyKing;
        if e.Some? {
          var i :| 0 <= i < k - 1 && e.value == SquareAt(i) && Holds(At(b, SquareAt(i)), King, Opponent(ai))
                    && forall j :: i < j < k - 1 ==> !Holds(At(b, SquareAt(j)), King, Opponent(ai));
          assert forall j :: i < j < k ==> !Holds(At(b, SquareAt(j)), King, Opponent(ai));
        }
      }
    }
  }

  /** The Manhattan distance from p to the nearest of the four corners. */
  function CornerDistance(p: Pos): nat {
    var d1 := Distance(0, p.row) + Distance(0, p.col);
    var d2 := Distance(0, p.row) + Distance(7, p.col);
    var d3 := Distance(7, p.row) + Distance(0, p.col);
    var d4 := Distance(7, p.row) + Distance(7, p.col);
    var m12 := if d1 <= d2 then d1 else d2;
    var m34 := if d3 <= d4 then d3 else d4;
    if m12 <= m34 then m12 else m34
  }

  /** On the board the nearest corner is nearest in each coordinate, at most 6 squares away. */
  lemma CornerDistanceNearest(p: Pos)
    requires InBounds(p)
    ensures CornerDistance(p) == (if p.row <= 7 - p.row then p.row else 7 - p.row) + (if p.col <= 7 - p.col then p.col else 7 - p.col)
    ensures CornerDistance(p) <= 6
  {
  }

  /** The endgame term: with at most five pieces left, 0.5 per step the enemy king is driven towards a corner. */
  function CornerBonus(t: Tally): int {
    if t.pieces <= 5 && t.enemyKing.Some? then (14 - CornerDistance(t.enemyKing.value)) * 5 else 0
  }

  /** In the endgame the bonus is 40 to 70, and larger the nearer the enemy king is to a corner. */
  lemma CornerBonusRange(t: Tally, u: Tally)
    requires t.pieces <= 5 && t.enemyKing.Some? && InBounds(t.enemyKing.value)
    requires u.pieces <= 5 && u.enemyKing.Some? && InBounds(u.enemyKing.value)
    ensures 40 <= CornerBonus(t) <= 70
    ensures CornerDistance(t.enemyKing.value) < CornerDistance(u.enemyKing.value) ==> CornerBonus(t) > CornerBonus(u)
  {
    CornerDistanceNearest(t.enemyKing.value);
  }

  /** The mobility term: the moves of the side to move minus those of its opponent, 0.1 each. */
  function Mobility(s: State): int
    requires WellFormed(s)
  {
    |AllLegalMoves(s)| - |AllLegalMoves(s.(turn := Opponent(s.turn)))|
  }

  /** Mobility is antisymmetric in the side to move. */
  lemma MobilityFlip(s: State)
    requires WellFormed(s)
    ensures Mobility(s.(turn := Opponent(s.turn))) == -Mobility(s)
  {
    var o := s.(turn := Opponent(s.turn));
    MovesFromIgnoreTurn(s, Opponent(s.turn), Opponent(s.turn), 0, 0);
    MovesFromIgnoreTurn(s, s.turn, s.turn, 0, 0);
    assert o.(turn := Opponent(o.turn)) == s.(turn := s.turn);
  }

  /** The side to move is checkmated: no legal move and in check. */
  predicate Mated(s: State)
    requires WellFormed(s)
  {
    !HasLegalMove(s, s.turn) && InCheck(s.board, s.turn)
  }

  /**
   * evaluateBoard(board, ai, engine): +-10000 pawns when the side to move is mated (plus unless
   * it is the AI's colour), 0 on stalemate, else material, mobility and the endgame corner term.
   */
  function Evaluate(s: State, ai: Color): int
    requires WellFormed(s)
  {
    if !HasLegalMove(s, s.turn) && InCheck(s.board, s.turn) then (if s.turn != ai then MateScore else -MateScore)
    else if !HasLegalMove(s, s.turn) && !InCheck(s.board, s.turn) then 0
    else
      var t := TallyOf(s.board, ai, 64);
      t.material + Mobility(s) + CornerBonus(t)
  }

  /**
   * When the side to move has no move at all (getAllLegalMoves is empty) the evaluation is
   * decided: a mate scores 10000 pawns against the mated side, a stalemate 0; opposite AI
   * colours see opposite scores.
   */
  lemma EvaluateTerminal(s: State, ai: Color)
    requires WellFormed(s) && AllLegalMoves(s) == []
    ensures Evaluate(s, ai) == (if !InCheck(s.board, s.turn) then 0 else if s.turn == ai then -MateScore else MateScore)
    ensures Evaluate(s, ai) == -Evaluate(s, Opponent(ai))
  {
    NoMovesIff(s);
  }

  /** Away from mate and stalemate, the two AI colours see the material and mobility terms with opposite signs. */
  lemma EvaluateZeroSum(s: State)
    requires WellFormed(s) && AllLegalMoves(s) != []
    ensures Evaluate(s, White) - CornerBonus(TallyOf(s.board, White, 64))
         == -(Evaluate(s, Black) - CornerBonus(TallyOf(s.board, Black, 64))) + 2 * Mobility(s)
  {
    NoMovesIff(s);
    MaterialZeroSum(s.board, 64);
  }

  // ---------------------------------------------------------------- the searched game

  /** An empty board, only there to show that well-formed snapshots exist. */
  const Blank: Board := seq(8, (_: int) => seq(8, (_: int) => None))

  /** An engine snapshot the rules accept. */
  type Position = s: State | WellFormed(s) witness State(Blank, White, map[], None, [], 0)

  /** The engine after clone().makeMove(m.from, m.to): the move's result, or the same state if it is rejected. */
  function Child(s: State, m: Move): (t: State)
    requires WellFormed(s)
    ensures WellFormed(t)
  {
    Play(s, m.from, m.to).1
  }

  /** The game minimax and alphabeta search for the AI colour ai. */
  function ChessGame(ai: Color): Game<Position, Move> {
    var moves: Position -> seq<Move> := (s: Position) => AllLegalMoves(s);
    var child: (Position, Move) -> Position := (s: Position, m: Move) => Child(s, m);
    var eval: Position -> int := (s: Position) => Evaluate(s, ai);
    Game(moves, child, eval)
  }

  /**
   * Both searches score a position by evaluateBoard at depth 0 and whenever the side to move
   * has no legal move.
   */
  lemma SearchLeaf(s: Position, depth: nat, alpha: Value, beta: Value, maximizing: bool, ai: Color)
    requires depth == 0 || !HasLegalMove(s, s.turn)
    ensures Minimax(ChessGame(ai), s, depth, maximizing) == Fin(Evaluate(s, ai))
    ensures AlphaBeta(ChessGame(ai), s, depth, alpha, beta, maximizing) == Fin(Evaluate(s, ai))
  {
    NoMovesIff(s);
  }

  /**
   * When the side to move can move, a maximizing minimax node is at least the value of every
   * position a legal move leads to (a minimizing node at most), and equal to one of them.
   */
  lemma MinimaxOverLegalMoves(s: Position, depth: nat, maximizing: bool, ai: Color)
    requires depth > 0 && HasLegalMove(s, s.turn)
    ensures var v := Minimax(ChessGame(ai), s, depth, maximizing);
      && (forall m :: m in AllLegalMoves(s) ==>
            var c := Minimax(ChessGame(ai), Child(s, m), depth - 1, !maximizing);
            if maximizing then Le(c, v) else Le(v, c))
      && (exists m :: m in AllLegalMoves(s) && v == Minimax(ChessGame(ai), Child(s, m), depth - 1, !maximizing))
  {
    var g := ChessGame(ai);
    NoMovesIff(s);
    assert g.moves(s) == AllLegalMoves(s);
    MinimaxBestMove(g, s, depth, maximizing);
    forall m | m in AllLegalMoves(s)
      ensures g.child(s, m) == Child(s, m)
    {
    }
  }

  // ---------------------------------------------------------------- the searches' move loops, one move at a time

  /** A minimax node that has legal moves is its move loop over AllLegalMoves, from -Infinity (Infinity). */
  lemma MinimaxEntry(s: Position, depth: nat, maximizing: bool, ai: Color)
    requires depth > 0 && AllLegalMoves(s) != []
    ensures Minimax(ChessGame(ai), s, depth, maximizing)
      == MinimaxLoop(ChessGame(ai), s, AllLegalMoves(s), 0, depth, maximizing, if maximizing then NegInf else PosInf)
  {
    assert ChessGame(ai).moves(s) == AllLegalMoves(s);
  }

  /** One iteration of minimax's move loop folds the searched value of the i-th child into the bound. */
  lemma MinimaxMoveStep(s: Position, i: nat, childDepth: nat, maximizing: bool, ai: Color, acc: Value, c: Value)
    requires i < |AllLegalMoves(s)|
    requires c == Minimax(ChessGame(ai), Child(s, AllLegalMoves(s)[i]), childDepth, !maximizing)
    ensures MinimaxLoop(ChessGame(ai), s, AllLegalMoves(s), i, childDepth + 1, maximizing, acc)
      == MinimaxLoop(ChessGame(ai), s, AllLegalMoves(s), i + 1, childDepth + 1, maximizing, if maximizing then Max(acc, c) else Min(acc, c))
  {
    var g := ChessGame(ai);
    assert g.child(s, AllLegalMoves(s)[i]) == Child(s, AllLegalMoves(s)[i]);
    MinimaxLoopStep(g, s, AllLegalMoves(s), i, childDepth + 1, maximizing, acc);
  }

  /** An alphabeta node that has legal moves is its maximizing (minimizing) loop over AllLegalMoves. */
  lemma AlphaBetaEntry(s: Position, depth: nat, alpha: Value, beta: Value, maximizing: bool, ai: Color)
    requires depth > 0 && AllLegalMoves(s) != []
    ensures AlphaBeta(ChessGame(ai), s, depth, alpha, beta, maximizing)
      == if maximizing then MaxLoop(ChessGame(ai), s, AllLegalMoves(s), 0, depth, alpha, beta, NegInf)
         else MinLoop(ChessGame(ai), s, AllLegalMoves(s), 0, depth, alpha, beta, PosInf)
  {
    assert ChessGame(ai).moves(s) == AllLegalMoves(s);
  }

  /** One iteration of alphabeta's maximizing loop: raise value and alpha, and stop once beta <= alpha. */
  lemma MaxMoveStep(s: Position, i: nat, childDepth: nat, alpha: Value, beta: Value, value: Value, ai: Color, c: Value)
    requires i < |AllLegalMoves(s)|
    requires c == AlphaBeta(ChessGame(ai), Child(s, AllLegalMoves(s)[i]), childDepth, alpha, beta, false)
    ensures var value' := Max(value, c);
      var alpha' := Max(alpha, value');
      MaxLoop(ChessGame(ai), s, AllLegalMoves(s), i, childDepth + 1, alpha, beta, value)
        == if Le(beta, alpha') then value' else MaxLoop(ChessGame(ai), s, AllLegalMoves(s), i + 1, childDepth + 1, alpha', beta, value')
  {
    var g := ChessGame(ai);
    assert g.child(s, AllLegalMoves(s)[i]) == Child(s, AllLegalMoves(s)[i]);
  }

  /** One iteration of alphabeta's minimizing loop: lower value and beta, and stop once beta <= alpha. */
  lemma MinMoveStep(s: Position, i: nat, childDepth: nat, alpha: Value, beta: Value, value: Value, ai: Color, c: Value)
    requires i < |AllLegalMoves(s)|
    requires c == AlphaBeta(ChessGame(ai), Child(s, AllLegalMoves(s)[i]), childDepth, alpha, beta, true)
    ensures var value' := Min(value, c);
      var beta' := Min(beta, value');
      MinLoop(ChessGame(ai), s, AllLegalMoves(s), i, childDepth + 1, alpha, beta, value)
        == if Le(beta', alpha) then value' else MinLoop(ChessGame(ai), s, AllLegalMoves(s), i + 1, childDepth + 1, alpha, beta', value')
  {
    var g := ChessGame(ai);
    assert g.child(s, AllLegalMoves(s)[i]) == Child(s, AllLegalMoves(s)[i]);
  }
}
