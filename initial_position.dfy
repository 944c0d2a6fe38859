/**
 * The constant initialPosition of src/logic/initialPosition.ts, the engine built from it, and
 * what follows for every game started there. None of its pieces carries an id, so all 32 share
 * the one absent key of the has-moved map: the first move marks it, and castling is never offered.
 */
module InitialPosition {
  import opened Wrappers
  import opened Pieces
  import opened MoveGen
  import opened GameRules
  import opened RulesFacts
  import opened ChessEngine

  /** A piece of the initial position: no id. */
  function Man(k: Kind, c: Color): Square {
    Some(Piece(NoId, k, c))
  }

  /** The order of the pieces on a back rank, column 0 to 7. */
  const BackRankKinds: seq<Kind> := [Rook, Knight, Bishop, Queen, King, Bishop, Knight, Rook]

  function BackRank(c: Color): seq<Square> {
    [Man(Rook, c), Man(Knight, c), Man(Bishop, c), Man(Queen, c),
     Man(King, c), Man(Bishop, c), Man(Knight, c), Man(Rook, c)]
  }

  function PawnRank(c: Color): seq<Square> {
    [Man(Pawn, c), Man(Pawn, c), Man(Pawn, c), Man(Pawn, c),
     Man(Pawn, c), Man(Pawn, c), Man(Pawn, c), Man(Pawn, c)]
  }

  const EmptyRank: seq<Square> := [None, None, None, None, None, None, None, None]

  /** initialPosition: black on rows 0 and 1, white on rows 6 and 7. */
  const Initial: Board := [
    BackRank(Black), PawnRank(Black),
    EmptyRank, EmptyRank, EmptyRank, EmptyRank,
    PawnRank(White), BackRank(White)]

  /** The board has 8 rows of 8 squares. */
  lemma InitialShape()
    ensures IsBoard(Initial) && |Initial| == 8
    ensures forall r :: 0 <= r < 8 ==> |Initial[r]| == 8
  {
  }

  /** Row 0 is R, N, B, Q, K, B, N, R in black and row 7 the same in white. */
  lemma InitialBackRanks()
    ensures forall c :: 0 <= c < 8 ==>
      Initial[0][c] == Man(BackRankKinds[c], Black) && Initial[7][c] == Man(BackRankKinds[c], White)
  {
  }

  /** Row 1 is all black pawns, row 6 all white pawns, and rows 2 to 5 are empty. */
  lemma InitialPawnsAndEmptyRows()
    ensures forall c :: 0 <= c < 8 ==> Initial[1][c] == Man(Pawn, Black) && Initial[6][c] == Man(Pawn, White)
    ensures forall r, c :: 2 <= r <= 5 && 0 <= c < 8 ==> Initial[r][c].None?
  {
  }

  /** No piece of the initial position carries an id. */
  lemma InitialNoIds()
    ensures forall q :: InBounds(q) && At(Initial, q).Some? ==> At(Initial, q).value.id == NoId
  {
    forall q | InBounds(q) && At(Initial, q).Some?
      ensures At(Initial, q).value.id == NoId
    {
      InitialBackRanks();
      InitialPawnsAndEmptyRows();
      assert q.row in {0, 1, 6, 7};
    }
  }

  /** The square of the king of colour c at the start. */
  function KingHome(c: Color): Pos {
    if c == White then Pos(7, 4) else Pos(0, 4)
  }

  /** There is exactly one king of each colour: black on (0, 4), white on (7, 4); isInCheck finds it there. */
  lemma InitialKings(c: Color)
    ensures forall q :: InBounds(q) && Holds(At(Initial, q), King, c) ==> q == KingHome(c)
    ensures FindKing(Initial, c) == Some(KingHome(c))
  {
    InitialBackRanks();
    InitialPawnsAndEmptyRows();
    forall q | InBounds(q) && Holds(At(Initial, q), King, c)
      ensures q == KingHome(c)
    {
      assert q.row == 0 || q.row == 7;
    }
    InitialFindKing(c);
  }

  /** The row-major king scan of isInCheck stops on the king's home square. */
  lemma InitialFindKing(c: Color)
    ensures FindKing(Initial, c) == Some(KingHome(c))
  {
    InitialBackRanks();
    if c == White {
      assert forall i, j :: 0 <= i < 7 && 0 <= j < 8 ==> !Holds(Initial[i][j], King, c) by {
        InitialPawnsAndEmptyRows();
      }
      KingFromSkipsRows(Initial, c, 0, 7);
      KingFromSkips(Initial, c, 7, 0, 4);
    } else {
      KingFromSkips(Initial, c, 0, 0, 4);
    }
  }

  /** The engine state new Engine(initialPosition) starts from. */
  function Start(): (s: State)
    ensures WellFormed(s)
  {
    State(Initial, White, map[], None, [], 1000)
  }

  /** new Engine(initialPosition): the array holding the constant, and the engine copying it. */
  method NewGame() returns (e: Engine)
    ensures fresh(e) && e.Valid() && e.Snapshot() == Start()
  {
    var a := new Square[8, 8]((r, c) => if 0 <= r < 8 && 0 <= c < 8 then Initial[r][c] else None);
    e := new Engine(a);
    BoardsEqual(Contents(a), Initial);
  }

  /**
   * What holds in every state a game from the start reaches: the en passant target is empty,
   * only promoted queens carry ids and those are below the counter, and either the board is
   * still the initial one or the shared absent id is marked as moved.
   */
  ghost predicate Reachable(s: State)
    requires WellFormed(s)
  {
    && EpEmpty(s) && IdsIssued(s.board, s.nextId)
    && (Moved(s.hasMoved, NoId) || s.board == Initial)
  }

  lemma {:induction false} GameInvariant(moves: seq<Move>)
    ensures Reachable(PlayAll(Start(), moves))
    decreases |moves|
  {
    InitialNoIds();
    if moves == [] {
    } else {
      var n := |moves| - 1;
      GameInvariant(moves[..n]);
      var s := PlayAll(Start(), moves[..n]);
      var m := moves[n];
      PlayKeepsEpEmpty(s, m.from, m.to);
      if Play(s, m.from, m.to).0 {
        ApplyKeepsIds(s, m.from, m.to);
        var pc := At(s.board, m.from).value;
        assert Moved(Apply(s, m.from, m.to).hasMoved, pc.id);
        if !Moved(s.hasMoved, NoId) {
          assert pc.id == NoId;
        }
      }
    }
  }

  /** On the initial board no row has a rook with empty squares beside it on the king's side or the queen's side. */
  lemma NoCastlingShape(s: State, row: int, color: Color)
    requires WellFormed(s) && s.board == Initial && 0 <= row < 8
    ensures !CastleShort(s, row, color) && !CastleLong(s, row, color)
  {
    InitialBackRanks();
    InitialPawnsAndEmptyRows();
  }

  /** In every game from the initial position, castling is never among a king's candidates. */
  lemma CastlingNever(moves: seq<Move>, from: Pos)
    requires InBounds(from)
    requires var s := PlayAll(Start(), moves); At(s.board, from).Some? && At(s.board, from).value.kind == King
    ensures var s := PlayAll(Start(), moves); Castling(s, from, At(s.board, from).value) == []
  {
    var s := PlayAll(Start(), moves);
    var pc := At(s.board, from).value;
    GameInvariant(moves);
    if s.board == Initial {
      NoCastlingShape(s, from.row, pc.color);
    } else {
      assert pc.id == NoId;
    }
  }

  /** Hence no king ever has a legal move of two columns in a game from the initial position. */
  lemma NoTwoColumnKingMove(moves: seq<Move>, from: Pos, q: Pos)
    requires InBounds(from)
    requires var s := PlayAll(Start(), moves); At(s.board, from).Some? && At(s.board, from).value.kind == King
    requires q in LegalMoves(PlayAll(Start(), moves), from)
    ensures Distance(q.col, from.col) != 2
  {
    var s := PlayAll(Start(), moves);
    CastlingNever(moves, from);
    if Distance(q.col, from.col) == 2 {
      CastlingConditions(s, from, q);
      assert false;
    }
  }
}
