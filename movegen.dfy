/**
 * Raw move generation and the attack/check oracle of src/logic/engine.ts
 * (getRawMoves, isAttacked, isInCheck), as functions of a board snapshot, together with
 * the board-only building blocks that getLegalMoves shares with getRawMoves.
 */
module MoveGen {
  import opened Wrappers
  import opened Pieces

  /** A (row, column) displacement. */
  type Offset = (int, int)

  const KnightOffsets: seq<Offset> := [(2, 1), (1, 2), (-1, 2), (-2, 1), (-2, -1), (-1, -2), (1, -2), (2, -1)]
  const BishopDirs: seq<Offset> := [(-1, -1), (-1, 1), (1, -1), (1, 1)]
  const RookDirs: seq<Offset> := [(-1, 0), (1, 0), (0, -1), (0, 1)]
  const QueenDirs: seq<Offset> := BishopDirs + RookDirs
  const KingOffsets: seq<Offset> := [(-1, -1), (-1, 0), (-1, 1), (0, -1), (0, 1), (1, -1), (1, 0), (1, 1)]

  /** The row step of a pawn: white moves towards row 0, black towards row 7. */
  function Forward(c: Color): int {
    if c == White then -1 else 1
  }

  /** The row from which a pawn may advance two squares. */
  function StartRow(c: Color): int {
    if c == White then 6 else 1
  }

  function Shift(p: Pos, d: Offset): Pos {
    Pos(p.row + d.0, p.col + d.1)
  }

  /** One of the eight unit directions a slider walks along. */
  predicate IsDirection(d: Offset) {
    -1 <= d.0 <= 1 && -1 <= d.1 <= 1 && d != (0, 0)
  }

  /** The directions a piece slides along (empty for pawns, knights and kings). */
  function SlideDirs(k: Kind): (ds: seq<Offset>)
    ensures forall i :: 0 <= i < |ds| ==> IsDirection(ds[i])
    ensures k != Bishop && k != Rook && k != Queen ==> ds == []
  {
    match k
    case Bishop => BishopDirs
    case Rook => RookDirs
    case Queen => QueenDirs
    case _ => []
  }

  /**
   * What the `add` closure keeps of square p: it must be on the board and, when generating
   * legal moves (raw == false), must not hold a piece of the mover's colour.
   */
  function Keep(b: Board, p: Pos, color: Color, raw: bool): seq<Pos>
    requires IsBoard(b)
  {
    if InBounds(p) && (raw || !HasColor(At(b, p), color)) then [p] else []
  }

  /** `add` applied to from + d for every d of offs, in order (knight and king moves). */
  function Steps(b: Board, from: Pos, offs: seq<Offset>, color: Color, raw: bool): (r: seq<Pos>)
    requires IsBoard(b)
    ensures forall q :: q in r ==> InBounds(q)
    ensures !raw ==> forall q :: q in r ==> !HasColor(At(b, q), color)
    decreases |offs|
  {
    if offs == [] then []
    else Steps(b, from, offs[..|offs| - 1], color, raw) + Keep(b, Shift(from, offs[|offs| - 1]), color, raw)
  }

  /** A bound on the squares left along direction d from p; it drops by one per step. */
  function RayBudget(p: Pos, d: Offset): int {
    (if d.0 > 0 then 8 - p.row else if d.0 < 0 then p.row + 1 else 0)
    + (if d.1 > 0 then 8 - p.col else if d.1 < 0 then p.col + 1 else 0)
  }

  /**
   * The ray walked from square p (included) along d: empty squares are taken and the walk goes
   * on; the first occupied square ends it, and is taken when raw or when it holds an enemy.
   */
  function Ray(b: Board, p: Pos, d: Offset, color: Color, raw: bool): (r: seq<Pos>)
    requires IsBoard(b) && IsDirection(d)
    ensures forall q :: q in r ==> InBounds(q)
    ensures !raw ==> forall q :: q in r ==> !HasColor(At(b, q), color)
    decreases RayBudget(p, d)
  {
    if !InBounds(p) then []
    else if At(b, p).None? then [p] + Ray(b, Shift(p, d), d, color, raw)
    else if raw || At(b, p).value.color != color then [p]
    else []
  }

  /** The rays from `from` along each direction of dirs, in order. */
  function Rays(b: Board, from: Pos, dirs: seq<Offset>, color: Color, raw: bool): (r: seq<Pos>)
    requires IsBoard(b)
    requires forall i :: 0 <= i < |dirs| ==> IsDirection(dirs[i])
    ensures forall q :: q in r ==> InBounds(q)
    ensures !raw ==> forall q :: q in r ==> !HasColor(At(b, q), color)
    decreases |dirs|
  {
    if dirs == [] then []
    else
      var d := dirs[|dirs| - 1];
      Rays(b, from, dirs[..|dirs| - 1], color, raw) + Ray(b, Shift(from, d), d, color, raw)
  }

  /**
   * The forward pushes of a pawn: one square when it is empty, and then two squares when the
   * pawn stands on its start row and that square is empty too.
   */
  function PawnPushes(b: Board, from: Pos, color: Color): (r: seq<Pos>)
    requires IsBoard(b) && InBounds(from)
    ensures forall q :: q in r ==> InBounds(q) && At(b, q).None? && q.col == from.col
    ensures forall q :: q in r ==>
      q.row == from.row + Forward(color)
      || (from.row == StartRow(color) && q.row == from.row + 2 * Forward(color)
          && At(b, Pos(from.row + Forward(color), from.col)).None?)
  {
    var one := Pos(from.row + Forward(color), from.col);
    var two := Pos(from.row + 2 * Forward(color), from.col);
    if InBounds(one) && At(b, one).None? then
      [one] + (if from.row == StartRow(color) && InBounds(two) && At(b, two).None? then [two] else [])
    else []
  }

  /** The two squares a pawn attacks, as offsets (forward row, column -1 and +1). */
  function PawnDiagonals(color: Color): seq<Offset> {
    [(Forward(color), -1), (Forward(color), 1)]
  }

  /**
   * The legal-move diagonal of a pawn towards column offset dc: taken when it holds an enemy,
   * and (again) when it is the en passant target.
   */
  function PawnCapture(b: Board, from: Pos, color: Color, ep: Option<Pos>, dc: int): seq<Pos>
    requires IsBoard(b)
  {
    var p := Pos(from.row + Forward(color), from.col + dc);
    if 0 <= p.col < 8 then
      (if 0 <= p.row < 8 && At(b, p).Some? && At(b, p).value.color != color then [p] else [])
      + (if ep == Some(p) then [p] else [])
    else []
  }

  /** PawnCapture for every column offset of dcs, in order. */
  function PawnCaptures(b: Board, from: Pos, color: Color, ep: Option<Pos>, dcs: seq<int>): (r: seq<Pos>)
    requires IsBoard(b)
    requires ep.Some? ==> InBounds(ep.value)
    ensures forall q :: q in r ==> InBounds(q)
    ensures forall q :: q in r ==> q.row == from.row + Forward(color) && (exists i :: 0 <= i < |dcs| && q.col == from.col + dcs[i])
    ensures forall q :: q in r ==> (At(b, q).Some? && At(b, q).value.color != color) || ep == Some(q)
    decreases |dcs|
  {
    if dcs == [] then []
    else PawnCaptures(b, from, color, ep, dcs[..|dcs| - 1]) + PawnCapture(b, from, color, ep, dcs[|dcs| - 1])
  }

  /**
   * getRawMoves: the squares a piece reaches ignoring the safety of its own king. With
   * forAttack a pawn reports only its two diagonals, whatever stands on them.
   */
  function RawMoves(b: Board, from: Pos, forAttack: bool): (r: seq<Pos>)
    requires IsBoard(b) && InBounds(from)
    ensures forall q :: q in r ==> InBounds(q)
  {
    match At(b, from)
    case None => []
    case Some(pc) =>
      match pc.kind
      case Pawn =>
        (if forAttack then [] else PawnPushes(b, from, pc.color))
        + Steps(b, from, PawnDiagonals(pc.color), pc.color, true)
      case Knight => Steps(b, from, KnightOffsets, pc.color, true)
      case King => Steps(b, from, KingOffsets, pc.color, true)
      case _ => Rays(b, from, SlideDirs(pc.kind), pc.color, true)
  }

  /** Square (r, c) holds an enemy of color whose raw attacks include pos. */
  predicate AttacksFrom(b: Board, pos: Pos, color: Color, r: int, c: int)
    requires IsBoard(b)
  {
    0 <= r < 8 && 0 <= c < 8 && HasColor(b[r][c], Opponent(color)) && pos in RawMoves(b, Pos(r, c), true)
  }

  /** isAttacked(pos, color): some piece of color's opponent has pos among its raw attacks. */
  predicate Attacked(b: Board, pos: Pos, color: Color)
    requires IsBoard(b)
  {
    exists r, c :: 0 <= r < 8 && 0 <= c < 8 && AttacksFrom(b, pos, color, r, c)
  }

  /** The squares holding an attacker of pos, as a test. */
  function Attackers(b: Board, pos: Pos, color: Color): (int, int) -> bool
    requires IsBoard(b)
  {
    (i: int, j: int) => AttacksFrom(b, pos, color, i, j)
  }

  /** The row-major scan isAttacked performs finds an attacker exactly when pos is attacked. */
  lemma AttackScan(b: Board, pos: Pos, color: Color)
    requires IsBoard(b)
    ensures Scan(Attackers(b, pos, color), 0, 0) == Attacked(b, pos, color)
  {
    var f := Attackers(b, pos, color);
    ScanWhole(f);
    if Scan(f, 0, 0) {
      var i, j :| 0 <= i < 8 && 0 <= j < 8 && f(i, j);
      assert AttacksFrom(b, pos, color, i, j);
    }
    if Attacked(b, pos, color) {
      var i, j :| 0 <= i < 8 && 0 <= j < 8 && AttacksFrom(b, pos, color, i, j);
      assert f(i, j);
    }
  }

  /** The first king of colour `color` at or after (r, c) in row-major order. */
  function KingFrom(b: Board, color: Color, r: int, c: int): (k: Option<Pos>)
    requires IsBoard(b) && 0 <= r <= 8 && 0 <= c <= 8
    ensures k.Some? ==> InBounds(k.value) && Holds(At(b, k.value), King, color)
    decreases 8 - r, 8 - c
  {
    if r == 8 then None
    else if c == 8 then KingFrom(b, color, r + 1, 0)
    else if Holds(b[r][c], King, color) then Some(Pos(r, c))
    else KingFrom(b, color, r, c + 1)
  }

  /**
   * The king scan from (r, c) finds the first king of that colour at or after (r, c):
   * no such king lies between (r, c) and the square returned, and none is found only when
   * no square from (r, c) on holds one.
   */
  lemma {:induction false} KingFromFirst(b: Board, color: Color, r: int, c: int)
    requires IsBoard(b) && 0 <= r <= 8 && 0 <= c <= 8
    ensures KingFrom(b, color, r, c).Some? ==>
      var k := KingFrom(b, color, r, c).value;
      && AtOrAfter(r, c, k.row, k.col)
      && forall i, j :: AtOrAfter(r, c, i, j) && !AtOrAfter(k.row, k.col, i, j) ==> !Holds(b[i][j], King, color)
    ensures KingFrom(b, color, r, c).None? ==>
      forall i, j :: AtOrAfter(r, c, i, j) ==> !Holds(b[i][j], King, color)
    decreases 8 - r, 8 - c
  {
    if r == 8 {
    } else if c == 8 {
      KingFromFirst(b, color, r + 1, 0);
      assert forall i, j :: AtOrAfter(r, c, i, j) <==> AtOrAfter(r + 1, 0, i, j);
    } else if !Holds(b[r][c], King, color) {
      KingFromFirst(b, color, r, c + 1);
      assert forall i, j :: AtOrAfter(r, c, i, j) <==> (i == r && j == c) || AtOrAfter(r, c + 1, i, j);
    }
  }

  /** The king scan passes over the squares of row r from column c to c' when none holds such a king. */
  lemma {:induction false} KingFromSkips(b: Board, color: Color, r: int, c: int, c': int)
    requires IsBoard(b) && 0 <= r < 8 && 0 <= c <= c' <= 8
    requires forall j :: c <= j < c' ==> !Holds(b[r][j], King, color)
    ensures KingFrom(b, color, r, c) == KingFrom(b, color, r, c')
    decreases c' - c
  {
    if c < c' {
      KingFromSkips(b, color, r, c + 1, c');
    }
  }

  /** The king scan passes over whole rows r to r' - 1 when none holds such a king. */
  lemma {:induction false} KingFromSkipsRows(b: Board, color: Color, r: int, r': int)
    requires IsBoard(b) && 0 <= r <= r' <= 8
    requires forall i, j :: r <= i < r' && 0 <= j < 8 ==> !Holds(b[i][j], King, color)
    ensures KingFrom(b, color, r, 0) == KingFrom(b, color, r', 0)
    decreases r' - r
  {
    if r < r' {
      KingFromSkips(b, color, r, 0, 8);
      KingFromSkipsRows(b, color, r + 1, r');
    }
  }

  /** The king isInCheck looks at: the first one of that colour in row-major order. */
  function FindKing(b: Board, color: Color): (k: Option<Pos>)
    requires IsBoard(b)
    ensures k.Some? ==> InBounds(k.value) && Holds(At(b, k.value), King, color)
  {
    KingFrom(b, color, 0, 0)
  }

  /**
   * The king isInCheck looks at is the first king of that colour in row-major order, and there
   * is none exactly when no square of the board holds such a king.
   */
  lemma FindKingFirst(b: Board, color: Color)
    requires IsBoard(b)
    ensures FindKing(b, color).Some? ==>
      var k := FindKing(b, color).value;
      forall i, j :: 0 <= i < 8 && 0 <= j < 8 && !AtOrAfter(k.row, k.col, i, j) ==> !Holds(b[i][j], King, color)
    ensures FindKing(b, color).None? <==> forall i, j :: 0 <= i < 8 && 0 <= j < 8 ==> !Holds(b[i][j], King, color)
  {
    KingFromFirst(b, color, 0, 0);
    assert forall i, j :: AtOrAfter(0, 0, i, j) <==> 0 <= i < 8 && 0 <= j < 8;
  }

  /** isInCheck: the king of that colour is attacked; false when there is no such king. */
  predicate InCheck(b: Board, color: Color)
    requires IsBoard(b)
  {
    match FindKing(b, color)
    case None => false
    case Some(k) => Attacked(b, k, color)
  }
}
