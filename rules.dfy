/**
 * The game state of class Engine (src/logic/engine.ts) as a value, and the rules that act on
 * it: candidate and legal moves (getLegalMoves), applying a move (applyMove), the checked
 * entry point (makeMove) and the any-legal-move test (hasAnyLegalMove).
 */
module GameRules {
  import opened Wrappers
  import opened Pieces
  import opened MoveGen

  /** A snapshot of the engine's fields; nextId is the counter behind getUniqueId. */
  datatype State = State(
    board: Board,
    turn: Color,
    hasMoved: map<PieceId, bool>,
    ep: Option<Pos>,
    history: seq<Move>,
    nextId: nat)

  /** An 8x8 board, and an en passant target (when set) on a square a pawn can skip. */
  predicate WellFormed(s: State) {
    IsBoard(s.board) && (s.ep.Some? ==> 1 <= s.ep.value.row <= 6 && 0 <= s.ep.value.col < 8)
  }

  /** `this.hasMoved[id]` is truthy; a missing key reads as undefined. */
  predicate Moved(m: map<PieceId, bool>, id: PieceId) {
    id in m && m[id]
  }

  /** The short-castling conditions on row `row`: unmoved rook on column 7, columns 5 and 6 empty and unattacked. */
  predicate CastleShort(s: State, row: int, color: Color)
    requires WellFormed(s) && 0 <= row < 8
  {
    && Holds(s.board[row][7], Rook, color)
    && !Moved(s.hasMoved, s.board[row][7].value.id)
    && s.board[row][5].None? && s.board[row][6].None?
    && !Attacked(s.board, Pos(row, 5), color) && !Attacked(s.board, Pos(row, 6), color)
  }

  /** The long-castling conditions on row `row`: unmoved rook on column 0, columns 1-3 empty, 2 and 3 unattacked. */
  predicate CastleLong(s: State, row: int, color: Color)
    requires WellFormed(s) && 0 <= row < 8
  {
    && Holds(s.board[row][0], Rook, color)
    && !Moved(s.hasMoved, s.board[row][0].value.id)
    && s.board[row][1].None? && s.board[row][2].None? && s.board[row][3].None?
    && !Attacked(s.board, Pos(row, 2), color) && !Attacked(s.board, Pos(row, 3), color)
  }

  /** The castling targets of king pc on `from`: only while its id is unmoved and it is not in check. */
  function Castling(s: State, from: Pos, pc: Piece): (r: seq<Pos>)
    requires WellFormed(s) && InBounds(from)
    ensures forall q :: q in r ==> q == Pos(from.row, 6) || q == Pos(from.row, 2)
  {
    if !Moved(s.hasMoved, pc.id) && !InCheck(s.board, pc.color) then
      (if CastleShort(s, from.row, pc.color) then [Pos(from.row, 6)] else [])
      + (if CastleLong(s, from.row, pc.color) then [Pos(from.row, 2)] else [])
    else []
  }

  /** The moves getLegalMoves collects before the king-safety filter, in its order. */
  function Candidates(s: State, from: Pos): (r: seq<Pos>)
    requires WellFormed(s) && InBounds(from) && At(s.board, from).Some?
    ensures forall q :: q in r ==> InBounds(q)
  {
    var pc := At(s.board, from).value;
    match pc.kind
    case Pawn => PawnPushes(s.board, from, pc.color) + PawnCaptures(s.board, from, pc.color, s.ep, [-1, 1])
    case Knight => Steps(s.board, from, KnightOffsets, pc.color, false)
    case King => Steps(s.board, from, KingOffsets, pc.color, false) + Castling(s, from, pc)
    case _ => Rays(s.board, from, SlideDirs(pc.kind), pc.color, false)
  }

  /** The row offset, seen from the capturing pawn's target, of a pawn taken en passant. */
  function CaptureDir(c: Color): int {
    if c == White then 1 else -1
  }

  /** The row on which a pawn of colour c is promoted. */
  function LastRow(c: Color): int {
    if c == White then 0 else 7
  }

  /** |a - b|, Math.abs of a difference. */
  function Distance(a: int, b: int): nat {
    if a < b then b - a else a - b
  }

  /** The board after a pawn landing on the en passant target has removed the pawn it passed. */
  function CaptureEnPassant(b: Board, pc: Piece, ep: Option<Pos>, to: Pos): (r: Board)
    requires IsBoard(b) && (ep.Some? ==> 1 <= ep.value.row <= 6 && 0 <= ep.value.col < 8)
    ensures IsBoard(r)
  {
    if pc.kind == Pawn && ep == Some(to) then Set(b, Pos(to.row + CaptureDir(pc.color), to.col), None) else b
  }

  /** The board after the castling rook has been relocated, when the king moves two columns. */
  function MoveRook(b: Board, pc: Piece, from: Pos, to: Pos): (r: Board)
    requires IsBoard(b) && InBounds(from) && InBounds(to)
    ensures IsBoard(r)
  {
    if pc.kind == King && Distance(to.col, from.col) == 2 then
      if to.col == 6 then Set(Set(b, Pos(from.row, 5), At(b, Pos(from.row, 7))), Pos(from.row, 7), None)
      else if to.col == 2 then Set(Set(b, Pos(from.row, 3), At(b, Pos(from.row, 0))), Pos(from.row, 0), None)
      else b
    else b
  }

  /** The en passant target after pc moved from `from` to `to`. */
  function NextEp(pc: Piece, from: Pos, to: Pos): Option<Pos> {
    if pc.kind == Pawn && Distance(to.row, from.row) == 2 then Some(Pos((from.row + to.row) / 2, from.col)) else None
  }

  /**
   * applyMove: mark the mover's id, record the move, remove a pawn taken en passant, move the
   * castling rook, move the piece, flip the turn, set or clear the en passant target, and
   * replace a pawn on its last row by a queen with a fresh id.
   */
  function Apply(s: State, from: Pos, to: Pos): (r: State)
    requires WellFormed(s) && InBounds(from) && InBounds(to) && At(s.board, from).Some?
    ensures WellFormed(r)
  {
    var pc := At(s.board, from).value;
    var moved := s.hasMoved[pc.id := true];
    var history := s.history + [Move(from, to)];
    var b1 := CaptureEnPassant(s.board, pc, s.ep, to);
    var b2 := MoveRook(b1, pc, from, to);
    var b3 := Set(Set(b2, to, Some(pc)), from, None);
    var ep := NextEp(pc, from, to);
    if pc.kind == Pawn && to.row == LastRow(pc.color) then
      State(Set(b3, to, Some(Piece(Uid(s.nextId), Queen, pc.color))), Opponent(s.turn), moved, ep, history, s.nextId + 1)
    else
      State(b3, Opponent(s.turn), moved, ep, history, s.nextId)
  }

  /** The candidates whose application leaves the mover's king out of check, in order. */
  function SafeTargets(s: State, from: Pos, cands: seq<Pos>): (r: seq<Pos>)
    requires WellFormed(s) && InBounds(from) && At(s.board, from).Some?
    requires forall q :: q in cands ==> InBounds(q)
    ensures forall q :: q in r ==> q in cands
    decreases |cands|
  {
    if cands == [] then []
    else
      var last := cands[|cands| - 1];
      SafeTargets(s, from, cands[..|cands| - 1])
      + (if !InCheck(Apply(s, from, last).board, At(s.board, from).value.color) then [last] else [])
  }

  /** getLegalMoves(from): nothing for an empty or off-board square, else the safe candidates. */
  function LegalMoves(s: State, from: Pos): (r: seq<Pos>)
    requires WellFormed(s)
    ensures forall q :: q in r ==> InBounds(q)
  {
    if !InBounds(from) || At(s.board, from).None? then []
    else SafeTargets(s, from, Candidates(s, from))
  }

  /** hasAnyLegalMove(color): some piece of that colour has a legal move. */
  predicate HasLegalMove(s: State, color: Color)
    requires WellFormed(s)
  {
    exists r, c :: 0 <= r < 8 && 0 <= c < 8 && MovableFrom(s, color, r, c)
  }

  /** The squares holding a piece of that colour with a legal move, as a test. */
  function Movable(s: State, color: Color): (int, int) -> bool
    requires WellFormed(s)
  {
    (i: int, j: int) => MovableFrom(s, color, i, j)
  }

  /** The row-major scan hasAnyLegalMove performs succeeds exactly when some piece can move. */
  lemma MovableScan(s: State, color: Color)
    requires WellFormed(s)
    ensures Scan(Movable(s, color), 0, 0) == HasLegalMove(s, color)
  {
    var f := Movable(s, color);
    ScanWhole(f);
    if Scan(f, 0, 0) {
      var i, j :| 0 <= i < 8 && 0 <= j < 8 && f(i, j);
      assert MovableFrom(s, color, i, j);
    }
    if HasLegalMove(s, color) {
      var i, j :| 0 <= i < 8 && 0 <= j < 8 && MovableFrom(s, color, i, j);
      assert f(i, j);
    }
  }

  /** Square (r, c) holds a piece of that colour with at least one legal move. */
  predicate MovableFrom(s: State, color: Color, r: int, c: int)
    requires WellFormed(s)
  {
    0 <= r < 8 && 0 <= c < 8 && HasColor(s.board[r][c], color) && |LegalMoves(s, Pos(r, c))| > 0
  }

  /** makeMove(from, to): the success flag and the state afterwards. The turn is not consulted. */
  function Play(s: State, from: Pos, to: Pos): (res: (bool, State))
    requires WellFormed(s)
    ensures WellFormed(res.1)
    ensures res.0 <==> InBounds(from) && At(s.board, from).Some? && to in LegalMoves(s, from)
    ensures !res.0 ==> res.1 == s
  {
    if !InBounds(from) || At(s.board, from).None? then (false, s)
    else if to !in LegalMoves(s, from) then (false, s)
    else (true, Apply(s, from, to))
  }

  /** A sequence of makeMove calls from s, in order; rejected moves leave the state as it was. */
  function PlayAll(s: State, moves: seq<Move>): (r: State)
    requires WellFormed(s)
    ensures WellFormed(r)
    decreases |moves|
  {
    if moves == [] then s
    else
      var last := moves[|moves| - 1];
      Play(PlayAll(s, moves[..|moves| - 1]), last.from, last.to).1
  }
}
