/** The optional value used for empty squares and absent positions. */
module Wrappers {
  datatype Option<+T> = None | Some(value: T)
}

/**
 * Pieces, squares and the 8x8 board of src/logic/engine.ts (types Position and Square).
 * Presentation strings (image, dragImage) are not modelled.
 */
module Pieces {
  import opened Wrappers

  datatype Color = White | Black
  datatype Kind = Pawn | Knight | Bishop | Rook | Queen | King

  /**
   * The key of the has-moved map. The pieces of the initial position carry no id and all
   * share the absent key (NoId); a promoted queen gets a fresh id from the engine's counter.
   */
  datatype PieceId = NoId | Uid(n: nat)

  datatype Piece = Piece(id: PieceId, kind: Kind, color: Color)
  type Square = Option<Piece>

  datatype Pos = Pos(row: int, col: int)
  datatype Move = Move(from: Pos, to: Pos)

  /** Rows of squares; a well-formed board has 8 rows of 8. */
  type Board = seq<seq<Square>>

  function Opponent(c: Color): (o: Color)
    ensures o != c
  {
    if c == White then Black else White
  }

  predicate InBounds(p: Pos) {
    0 <= p.row < 8 && 0 <= p.col < 8
  }

  predicate IsBoard(b: Board) {
    |b| == 8 && forall r :: 0 <= r < 8 ==> |b[r]| == 8
  }

  function At(b: Board, p: Pos): Square
    requires IsBoard(b) && InBounds(p)
  {
    b[p.row][p.col]
  }

  /** The board with square p replaced by sq (one assignment board[p.row][p.col] = sq). */
  function Set(b: Board, p: Pos, sq: Square): (r: Board)
    requires IsBoard(b) && InBounds(p)
    ensures IsBoard(r)
    ensures At(r, p) == sq
    ensures forall q :: InBounds(q) && q != p ==> At(r, q) == At(b, q)
  {
    b[p.row := b[p.row][p.col := sq]]
  }

  /** Square (i, j) comes at or after (r, c) in row-major order, on the board. */
  predicate AtOrAfter(r: int, c: int, i: int, j: int) {
    (i == r < 8 && c <= j < 8) || (r < i < 8 && 0 <= j < 8)
  }

  /** A row-major scan of the board from (r, c) on, stopping at the first square satisfying f. */
  predicate Scan(f: (int, int) -> bool, r: int, c: int)
    requires 0 <= r <= 8 && 0 <= c <= 8
    decreases 8 - r, 8 - c
  {
    if r == 8 then false
    else if c == 8 then Scan(f, r + 1, 0)
    else f(r, c) || Scan(f, r, c + 1)
  }

  /** The scan from (r, c) succeeds exactly when a square at or after (r, c) satisfies f. */
  lemma {:induction false} ScanFinds(f: (int, int) -> bool, r: int, c: int)
    requires 0 <= r <= 8 && 0 <= c <= 8
    ensures Scan(f, r, c) <==> exists i, j :: AtOrAfter(r, c, i, j) && f(i, j)
    decreases 8 - r, 8 - c
  {
    if r == 8 {
    } else if c == 8 {
      ScanFinds(f, r + 1, 0);
      assert forall i, j :: AtOrAfter(r, c, i, j) <==> AtOrAfter(r + 1, 0, i, j);
    } else {
      ScanFinds(f, r, c + 1);
      assert forall i, j :: AtOrAfter(r, c, i, j) <==> (i == r && j == c) || AtOrAfter(r, c + 1, i, j);
    }
  }

  /** The scan of the whole board succeeds exactly when some square satisfies f. */
  lemma ScanWhole(f: (int, int) -> bool)
    ensures Scan(f, 0, 0) <==> exists i, j :: 0 <= i < 8 && 0 <= j < 8 && f(i, j)
  {
    ScanFinds(f, 0, 0);
    assert forall i, j :: AtOrAfter(0, 0, i, j) <==> 0 <= i < 8 && 0 <= j < 8;
  }

  /** The square holds a piece of colour c. */
  predicate HasColor(sq: Square, c: Color) {
    sq.Some? && sq.value.color == c
  }

  /** The square holds a piece of the given kind and colour. */
  predicate Holds(sq: Square, k: Kind, c: Color) {
    sq.Some? && sq.value.kind == k && sq.value.color == c
  }
}
