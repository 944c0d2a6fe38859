/**
 * class Engine of src/logic/engine.ts: one mutable game state whose board is an 8x8 array.
 * Every method is proved against the value-level rules of GameRules through Snapshot().
 */
module ChessEngine {
  import opened Wrappers
  import opened Pieces
  import opened MoveGen
  import opened GameRules

  /** The squares of an 8x8 array, as rows. */
  ghost function Contents(a: array2<Square>): (b: Board)
    requires a.Length0 == 8 && a.Length1 == 8
    reads a
    ensures IsBoard(b)
    ensures forall r, c :: 0 <= r < 8 && 0 <= c < 8 ==> b[r][c] == a[r, c]
  {
    seq(8, (r: int) requires 0 <= r < 8 reads a =>
      seq(8, (c: int) requires 0 <= c < 8 reads a => a[r, c]))
  }

  /** Two boards that agree on every square are equal. */
  lemma BoardsEqual(a: Board, b: Board)
    requires IsBoard(a) && IsBoard(b)
    requires forall r, c :: 0 <= r < 8 && 0 <= c < 8 ==> a[r][c] == b[r][c]
    ensures a == b
  {
    assert forall r :: 0 <= r < 8 ==> a[r] == b[r];
  }

  /** One more direction of dirs adds its ray at the end. */
  lemma RaysPrefix(b: Board, from: Pos, dirs: seq<Offset>, color: Color, raw: bool, i: int)
    requires IsBoard(b) && 0 <= i < |dirs|
    requires forall k :: 0 <= k < |dirs| ==> IsDirection(dirs[k])
    ensures Rays(b, from, dirs[..i + 1], color, raw)
      == Rays(b, from, dirs[..i], color, raw) + Ray(b, Shift(from, dirs[i]), dirs[i], color, raw)
  {
    assert dirs[..i + 1][..i] == dirs[..i];
  }

  /** Proof helper, not a property of the engine: concatenation is associative (stated for the solver, which does not apply it unasked). */
  lemma Assoc<T>(a: seq<T>, b: seq<T>, c: seq<T>)
    ensures (a + b) + c == a + (b + c)
  {
  }

  /** deepCloneBoard: a fresh array holding the same squares; no later write to either is seen by the other. */
  method DeepCloneBoard(board: array2<Square>) returns (copy: array2<Square>)
    ensures fresh(copy)
    ensures copy.Length0 == board.Length0 && copy.Length1 == board.Length1
    ensures forall r, c :: 0 <= r < board.Length0 && 0 <= c < board.Length1 ==> copy[r, c] == board[r, c]
  {
    copy := new Square[board.Length0, board.Length1];
    for r := 0 to board.Length0
      invariant forall i, j :: 0 <= i < r && 0 <= j < board.Length1 ==> copy[i, j] == board[i, j]
    {
      for c := 0 to board.Length1
        invariant forall i, j :: 0 <= i < r && 0 <= j < board.Length1 ==> copy[i, j] == board[i, j]
        invariant forall j :: 0 <= j < c ==> copy[r, j] == board[r, j]
      {
        copy[r, c] := board[r, c];
      }
    }
  }

  class Engine {
    var board: array2<Square>
    var currentTurn: Color
    var hasMoved: map<PieceId, bool>
    var enPassantTarget: Option<Pos>
    var moveHistory: seq<Move>
    /** The counter getUniqueId draws promotion ids from. */
    var nextId: nat
    /** The board as rows, kept equal to the array. */
    ghost var Rows: Board

    /** The engine's fields as a value. */
    ghost function Snapshot(): State
      reads this
    {
      State(Rows, currentTurn, hasMoved, enPassantTarget, moveHistory, nextId)
    }

    ghost predicate Valid()
      reads this, board
    {
      && board.Length0 == 8 && board.Length1 == 8
      && IsBoard(Rows)
      && (forall r, c :: 0 <= r < 8 && 0 <= c < 8 ==> board[r, c] == Rows[r][c])
      && WellFormed(Snapshot())
    }

    /** new Engine(initialPosition): a deep copy of the given board, white to move, nothing moved yet. */
    constructor (initialPosition: array2<Square>)
      requires initialPosition.Length0 == 8 && initialPosition.Length1 == 8
      ensures Valid() && fresh(board)
      ensures Rows == Contents(initialPosition)
      ensures currentTurn == White && hasMoved == map[] && enPassantTarget == None
      ensures moveHistory == [] && nextId == 1000
    {
      var copy := DeepCloneBoard(initialPosition);
      board := copy;
      Rows := Contents(initialPosition);
      currentTurn := White;
      hasMoved := map[];
      enPassantTarget := None;
      moveHistory := [];
      nextId := 1000;
    }

    /** clone(): an independent engine with a copied board, turn, has-moved map, en passant target and history. */
    method Clone() returns (clone: Engine)
      requires Valid()
      ensures fresh(clone) && fresh(clone.board)
      ensures clone.Valid() && clone.Snapshot() == Snapshot()
    {
      var copy := DeepCloneBoard(board);
      clone := new Engine(copy);
      clone.currentTurn := currentTurn;
      clone.hasMoved := hasMoved;
      clone.enPassantTarget := enPassantTarget;
      clone.moveHistory := moveHistory;
      clone.nextId := nextId;
      BoardsEqual(clone.Rows, Rows);
    }

    /** getBoard(): a fresh deep copy of the board. */
    method GetBoard() returns (copy: array2<Square>)
      requires Valid()
      ensures fresh(copy) && copy.Length0 == 8 && copy.Length1 == 8
      ensures Contents(copy) == Rows
    {
      copy := DeepCloneBoard(board);
      BoardsEqual(Contents(copy), Rows);
    }

    method GetCurrentTurn() returns (turn: Color)
      ensures turn == currentTurn
    {
      turn := currentTurn;
    }

    method GetMoveHistory() returns (history: seq<Move>)
      ensures history == moveHistory
    {
      history := moveHistory;
    }

    /** getUniqueId, as a counter owned by the engine. */
    method GetUniqueId() returns (id: PieceId)
      modifies this`nextId
      ensures id == Uid(old(nextId)) && nextId == old(nextId) + 1
    {
      id := Uid(nextId);
      nextId := nextId + 1;
    }

    /** One assignment this.board[p.row][p.col] = sq. */
    method SetSquare(p: Pos, sq: Square)
      requires Valid() && InBounds(p)
      modifies this`Rows, board
      ensures Valid() && Rows == Set(old(Rows), p, sq)
    {
      board[p.row, p.col] := sq;
      Rows := Set(Rows, p, sq);
    }

    /** The `add` closure applied to from + d for every d of offs, appended to moves. */
    method AddSteps(moves: seq<Pos>, from: Pos, offs: seq<Offset>, color: Color, raw: bool) returns (res: seq<Pos>)
      requires Valid()
      ensures res == moves + Steps(Rows, from, offs, color, raw)
    {
      res := moves;
      for i := 0 to |offs|
        invariant res == moves + Steps(Rows, from, offs[..i], color, raw)
      {
        var r, c := from.row + offs[i].0, from.col + offs[i].1;
        if 0 <= r < 8 && 0 <= c < 8 {
          var target := board[r, c];
          if raw || !HasColor(target, color) {
            res := res + [Pos(r, c)];
          }
        }
        assert offs[..i + 1][..i] == offs[..i];
      }
      assert offs[..|offs|] == offs;
    }

    /** The ray walk from `from` along direction d, appended to moves. */
    method WalkRay(moves: seq<Pos>, from: Pos, d: Offset, color: Color, raw: bool) returns (res: seq<Pos>)
      requires Valid() && IsDirection(d)
      ensures res == moves + Ray(Rows, Shift(from, d), d, color, raw)
    {
      res := moves;
      var r, c := from.row + d.0, from.col + d.1;
      while 0 <= r < 8 && 0 <= c < 8
        invariant res + Ray(Rows, Pos(r, c), d, color, raw) == moves + Ray(Rows, Shift(from, d), d, color, raw)
        decreases RayBudget(Pos(r, c), d)
      {
        var target := board[r, c];
        if target.None? {
          res := res + [Pos(r, c)];
        } else {
          if raw || target.value.color != color {
            res := res + [Pos(r, c)];
          }
          return;
        }
        r, c := r + d.0, c + d.1;
      }
    }

    /** The ray walks along every direction of dirs, appended to moves. */
    method WalkRays(moves: seq<Pos>, from: Pos, dirs: seq<Offset>, color: Color, raw: bool) returns (res: seq<Pos>)
      requires Valid()
      requires forall i :: 0 <= i < |dirs| ==> IsDirection(dirs[i])
      ensures res == moves + Rays(Rows, from, dirs, color, raw)
    {
      res := moves;
      for i := 0 to |dirs|
        invariant res == moves + Rays(Rows, from, dirs[..i], color, raw)
      {
        RaysPrefix(Rows, from, dirs, color, raw, i);
        Assoc(moves, Rays(Rows, from, dirs[..i], color, raw), Ray(Rows, Shift(from, dirs[i]), dirs[i], color, raw));
        res := WalkRay(res, from, dirs[i], color, raw);
      }
      assert dirs[..|dirs|] == dirs;
    }

    /** The forward pushes of the pawn of colour color on from, shared by both generators. */
    method PawnPushMoves(from: Pos, color: Color) returns (moves: seq<Pos>)
      requires Valid() && InBounds(from)
      ensures moves == PawnPushes(Rows, from, color)
    {
      moves := [];
      var dir := Forward(color);
      var startRow := StartRow(color);
      var one := from.row + dir;
      var two := from.row + dir * 2;
      if 0 <= one < 8 && board[one, from.col].None? {
        moves := moves + [Pos(one, from.col)];
        if from.row == startRow && 0 <= two < 8 && board[two, from.col].None? {
          moves := moves + [Pos(two, from.col)];
        }
      }
    }

    /**
     * getRawMoves(from, forAttack). The direction loop only runs for bishops, rooks and
     * queens, the only pieces with directions, so the kinds are handled as alternatives.
     */
    method GetRawMoves(from: Pos, forAttack: bool) returns (moves: seq<Pos>)
      requires Valid() && InBounds(from)
      ensures moves == RawMoves(Rows, from, forAttack)
    {
      var piece := board[from.row, from.col];
      if piece.None? {
        return [];
      }
      var color := piece.value.color;
      var kind := piece.value.kind;
      if kind == Pawn {
        moves := [];
        if !forAttack {
          moves := PawnPushMoves(from, color);
        }
        moves := AddSteps(moves, from, PawnDiagonals(color), color, true);
      } else if kind == Knight {
        moves := AddSteps([], from, KnightOffsets, color, true);
      } else if kind == King {
        moves := AddSteps([], from, KingOffsets, color, true);
      } else {
        moves := WalkRays([], from, SlideDirs(kind), color, true);
      }
    }

    /** isAttacked(pos, color): whether an enemy of color attacks pos. */
    method IsAttacked(pos: Pos, color: Color) returns (attacked: bool)
      requires Valid()
      ensures attacked == Attacked(Rows, pos, color)
    {
      var enemyColor := Opponent(color);
      ghost var attackers := Attackers(Rows, pos, color);
      AttackScan(Rows, pos, color);
      for r := 0 to 8
        invariant Scan(attackers, r, 0) == Scan(attackers, 0, 0)
      {
        for c := 0 to 8
          invariant Scan(attackers, r, c) == Scan(attackers, 0, 0)
        {
          var piece := board[r, c];
          if piece.Some? && piece.value.color == enemyColor {
            var moves := GetRawMoves(Pos(r, c), true);
            if pos in moves {
              assert attackers(r, c);
              return true;
            }
          }
          assert !attackers(r, c);
        }
      }
      return false;
    }

    /**
     * isInCheck(color): locate the first king of that colour, then look for an enemy attacking
     * it (the scan isInCheck repeats is the one of isAttacked).
     */
    method IsInCheck(color: Color) returns (check: bool)
      requires Valid()
      ensures check == InCheck(Rows, color)
    {
      var king: Option<Pos> := None;
      var r := 0;
      while r < 8 && king.None?
        invariant 0 <= r <= 8
        invariant king.None? ==> KingFrom(Rows, color, r, 0) == FindKing(Rows, color)
        invariant king.Some? ==> king == FindKing(Rows, color)
      {
        var c := 0;
        while c < 8 && king.None?
          invariant 0 <= c <= 8
          invariant king.None? ==> KingFrom(Rows, color, r, c) == FindKing(Rows, color)
          invariant king.Some? ==> king == FindKing(Rows, color)
        {
          var piece := board[r, c];
          if piece.Some? && piece.value.kind == King && piece.value.color == color {
            king := Some(Pos(r, c));
          }
          c := c + 1;
        }
        r := r + 1;
      }
      if king.None? {
        return false;
      }
      check := IsAttacked(king.value, color);
    }

    /** The short-castling test of getLegalMoves on row `row`. */
    method ShortCastleOk(row: int, color: Color) returns (ok: bool)
      requires Valid() && 0 <= row < 8
      ensures ok == CastleShort(Snapshot(), row, color)
    {
      var rookShort := board[row, 7];
      if rookShort.Some? && rookShort.value.kind == Rook && rookShort.value.color == color
        && !Moved(hasMoved, rookShort.value.id) && board[row, 5].None? && board[row, 6].None?
      {
        var attacked5 := IsAttacked(Pos(row, 5), color);
        var squaresSafe := !attacked5;
        if squaresSafe {
          var attacked6 := IsAttacked(Pos(row, 6), color);
          squaresSafe := !attacked6;
        }
        return squaresSafe;
      }
      return false;
    }

    /** The long-castling test of getLegalMoves on row `row`. */
    method LongCastleOk(row: int, color: Color) returns (ok: bool)
      requires Valid() && 0 <= row < 8
      ensures ok == CastleLong(Snapshot(), row, color)
    {
      var rookLong := board[row, 0];
      if rookLong.Some? && rookLong.value.kind == Rook && rookLong.value.color == color
        && !Moved(hasMoved, rookLong.value.id) && board[row, 1].None? && board[row, 2].None? && board[row, 3].None?
      {
        var attacked2 := IsAttacked(Pos(row, 2), color);
        var squaresSafe := !attacked2;
        if squaresSafe {
          var attacked3 := IsAttacked(Pos(row, 3), color);
          squaresSafe := !attacked3;
        }
        return squaresSafe;
      }
      return false;
    }

    /** The castling targets getLegalMoves adds for the king pc standing on from. */
    method CastlingMoves(moves: seq<Pos>, from: Pos, pc: Piece) returns (res: seq<Pos>)
      requires Valid() && InBounds(from)
      ensures res == moves + Castling(Snapshot(), from, pc)
    {
      res := moves;
      if Moved(hasMoved, pc.id) {
        return;
      }
      ghost var s := Snapshot();
      var inCheck := IsInCheck(pc.color);
      if inCheck {
        return;
      }
      var short := ShortCastleOk(from.row, pc.color);
      var long := LongCastleOk(from.row, pc.color);
      assert s == Snapshot();
      ghost var shortMoves := if short then [Pos(from.row, 6)] else [];
      ghost var longMoves := if long then [Pos(from.row, 2)] else [];
      assert Castling(s, from, pc) == shortMoves + longMoves;
      if short {
        res := res + [Pos(from.row, 6)];
      }
      assert res == moves + shortMoves;
      if long {
        res := res + [Pos(from.row, 2)];
      }
      assert res == (moves + shortMoves) + longMoves;
      Assoc(moves, shortMoves, longMoves);
    }

    /** One diagonal of the pawn part of getLegalMoves, towards column offset dc. */
    method PawnCaptureAt(from: Pos, color: Color, dc: int) returns (found: seq<Pos>)
      requires Valid()
      ensures found == PawnCapture(Rows, from, color, enPassantTarget, dc)
    {
      var col := from.col + dc;
      var row := from.row + Forward(color);
      found := [];
      if 0 <= col < 8 {
        var target := if 0 <= row < 8 then board[row, col] else None;
        if target.Some? && target.value.color != color {
          found := found + [Pos(row, col)];
        }
        if enPassantTarget == Some(Pos(row, col)) {
          found := found + [Pos(row, col)];
        }
      }
    }

    /** The diagonals of the pawn part of getLegalMoves. */
    method PawnCaptureMoves(from: Pos, color: Color) returns (moves: seq<Pos>)
      requires Valid() && InBounds(from)
      ensures moves == PawnCaptures(Rows, from, color, enPassantTarget, [-1, 1])
    {
      var dcs := [-1, 1];
      moves := [];
      for i := 0 to |dcs|
        invariant moves == PawnCaptures(Rows, from, color, enPassantTarget, dcs[..i])
      {
        var found := PawnCaptureAt(from, color, dcs[i]);
        assert dcs[..i + 1][..i] == dcs[..i];
        moves := moves + found;
      }
      assert dcs[..|dcs|] == dcs;
    }

    /**
     * The moves getLegalMoves collects for the piece on from, before the king-safety filter.
     * As in GetRawMoves, the kinds are handled as alternatives.
     */
    method CandidateMoves(from: Pos) returns (moves: seq<Pos>)
      requires Valid() && InBounds(from) && board[from.row, from.col].Some?
      ensures moves == Candidates(Snapshot(), from)
    {
      var piece := board[from.row, from.col].value;
      var color := piece.color;
      var kind := piece.kind;
      if kind == Pawn {
        var pushes := PawnPushMoves(from, color);
        var captures := PawnCaptureMoves(from, color);
        moves := pushes + captures;
      } else if kind == Knight {
        moves := AddSteps([], from, KnightOffsets, color, false);
      } else if kind == King {
        moves := AddSteps([], from, KingOffsets, color, false);
        moves := CastlingMoves(moves, from, piece);
      } else {
        moves := WalkRays([], from, SlideDirs(kind), color, false);
      }
    }

    /** The filter of getLegalMoves: keep the targets after which a clone's king of that colour is safe. */
    method SafeMoves(from: Pos, moves: seq<Pos>) returns (legal: seq<Pos>)
      requires Valid() && InBounds(from) && board[from.row, from.col].Some?
      requires forall q :: q in moves ==> InBounds(q)
      ensures legal == SafeTargets(Snapshot(), from, moves)
    {
      var color := board[from.row, from.col].value.color;
      legal := [];
      for i := 0 to |moves|
        invariant legal == SafeTargets(Snapshot(), from, moves[..i])
      {
        var to := moves[i];
        var clone := Clone();
        clone.ApplyMove(from, to);
        var check := clone.IsInCheck(color);
        if !check {
          legal := legal + [to];
        }
        assert moves[..i + 1][..i] == moves[..i];
      }
      assert moves[..|moves|] == moves;
    }

    /** getLegalMoves(from): the candidate targets, kept only when a clone with the move applied is not in check. */
    method GetLegalMoves(from: Pos) returns (legal: seq<Pos>)
      requires Valid() && 0 <= from.row < 8
      ensures legal == LegalMoves(Snapshot(), from)
    {
      if !(0 <= from.col < 8) {
        // this.board[row][col] is undefined off the board
        return [];
      }
      var piece := board[from.row, from.col];
      if piece.None? {
        return [];
      }
      var moves := CandidateMoves(from);
      legal := SafeMoves(from, moves);
    }

    /** hasAnyLegalMove(color): whether some piece of that colour has a legal move. */
    method HasAnyLegalMove(color: Color) returns (any: bool)
      requires Valid()
      ensures any == HasLegalMove(Snapshot(), color)
    {
      ghost var movable := Movable(Snapshot(), color);
      MovableScan(Snapshot(), color);
      for row := 0 to 8
        invariant Scan(movable, row, 0) == Scan(movable, 0, 0)
      {
        for col := 0 to 8
          invariant Scan(movable, row, col) == Scan(movable, 0, 0)
        {
          var piece := board[row, col];
          if piece.Some? && piece.value.color == color {
            var moves := GetLegalMoves(Pos(row, col));
            if |moves| > 0 {
              assert movable(row, col);
              return true;
            }
          }
          assert !movable(row, col);
        }
      }
      return false;
    }

    /** The en passant step of applyMove: a pawn landing on the target removes the pawn it passed. */
    method RemovePassedPawn(piece: Piece, to: Pos)
      requires Valid() && InBounds(to)
      modifies this`Rows, board
      ensures Valid() && Rows == CaptureEnPassant(old(Rows), piece, enPassantTarget, to)
    {
      if piece.kind == Pawn && enPassantTarget == Some(to) {
        var dir := CaptureDir(piece.color);
        SetSquare(Pos(to.row + dir, to.col), None);
      }
    }

    /** The castling step of applyMove: a king moving two columns brings its rook alongside. */
    method MoveCastlingRook(piece: Piece, from: Pos, to: Pos)
      requires Valid() && InBounds(from) && InBounds(to)
      modifies this`Rows, board
      ensures Valid() && Rows == MoveRook(old(Rows), piece, from, to)
    {
      if piece.kind == King && Distance(to.col, from.col) == 2 {
        var row := from.row;
        if to.col == 6 {
          SetSquare(Pos(row, 5), board[row, 7]);
          SetSquare(Pos(row, 7), None);
        } else if to.col == 2 {
          SetSquare(Pos(row, 3), board[row, 0]);
          SetSquare(Pos(row, 0), None);
        }
      }
    }

    /** The board steps of applyMove before promotion: en passant removal, castling rook, the move itself. */
    method MovePieces(piece: Piece, from: Pos, to: Pos)
      requires Valid() && InBounds(from) && InBounds(to)
      modifies this`Rows, board
      ensures Valid()
      ensures Rows == Set(Set(MoveRook(CaptureEnPassant(old(Rows), piece, enPassantTarget, to), piece, from, to), to, Some(piece)), from, None)
    {
      RemovePassedPawn(piece, to);
      MoveCastlingRook(piece, from, to);
      SetSquare(to, Some(piece));
      SetSquare(from, None);
    }

    /** The promotion step of applyMove: a pawn on its last row becomes a queen with a fresh id. */
    method Promote(piece: Piece, to: Pos)
      requires Valid() && InBounds(to)
      modifies this`Rows, this`nextId, board
      ensures Valid()
      ensures piece.kind == Pawn && to.row == LastRow(piece.color) ==>
        Rows == Set(old(Rows), to, Some(Piece(Uid(old(nextId)), Queen, piece.color))) && nextId == old(nextId) + 1
      ensures !(piece.kind == Pawn && to.row == LastRow(piece.color)) ==> Rows == old(Rows) && nextId == old(nextId)
    {
      var lastRow := LastRow(piece.color);
      if piece.kind == Pawn && to.row == lastRow {
        var id := GetUniqueId();
        SetSquare(to, Some(Piece(id, Queen, piece.color)));
      }
    }

    /** applyMove(from, to) for a square that holds a piece. */
    method ApplyMove(from: Pos, to: Pos)
      requires Valid() && InBounds(from) && InBounds(to) && board[from.row, from.col].Some?
      modifies this, board
      ensures Valid() && board == old(board)
      ensures Snapshot() == Apply(old(Snapshot()), from, to)
    {
      var piece := board[from.row, from.col].value;
      hasMoved := hasMoved[piece.id := true];
      moveHistory := moveHistory + [Move(from, to)];
      MovePieces(piece, from, to);
      currentTurn := Opponent(currentTurn);
      if piece.kind == Pawn && Distance(to.row, from.row) == 2 {
        enPassantTarget := Some(Pos((from.row + to.row) / 2, from.col));
      } else {
        enPassantTarget := None;
      }
      assert enPassantTarget == NextEp(piece, from, to);
      Promote(piece, to);
    }

    /** makeMove(from, to): apply the move only when `to` is a legal target of the piece on from; no turn check. */
    method MakeMove(from: Pos, to: Pos) returns (moved: bool)
      requires Valid() && 0 <= from.row < 8
      modifies this, board
      ensures Valid() && board == old(board)
      ensures (moved, Snapshot()) == Play(old(Snapshot()), from, to)
    {
      if !(0 <= from.col < 8) {
        // this.board[row][col] is undefined off the board
        return false;
      }
      var piece := board[from.row, from.col];
      if piece.None? {
        return false;
      }
      var legalMoves := GetLegalMoves(from);
      var isLegal := to in legalMoves;
      if !isLegal {
        return false;
      }
      ApplyMove(from, to);
      return true;
    }
  }
}
