/**
 * Properties of the rules of src/logic/engine.ts: what the move generators produce, what the
 * king-safety filter guarantees, what applyMove changes (and what it leaves alone) and what
 * makeMove does with a move it rejects.
 */
module RulesFacts {
  import opened Wrappers
  import opened Pieces
  import opened MoveGen
  import opened GameRules

  // ---------------------------------------------------------------- move generation

  /** A knight or king step lands exactly on the on-board offsets it keeps, and nowhere else. */
  lemma {:induction false} StepsTargets(b: Board, from: Pos, offs: seq<Offset>, color: Color, raw: bool, q: Pos)
    requires IsBoard(b)
    ensures q in Steps(b, from, offs, color, raw) <==>
      (exists i :: 0 <= i < |offs| && q == Shift(from, offs[i])) && InBounds(q) && (raw || !HasColor(At(b, q), color))
    decreases |offs|
  {
    if offs != [] {
      var n := |offs| - 1;
      StepsTargets(b, from, offs[..n], color, raw, q);
      if exists i :: 0 <= i < |offs| && q == Shift(from, offs[i]) {
        var i :| 0 <= i < |offs| && q == Shift(from, offs[i]);
        if i < n {
          assert offs[..n][i] == offs[i];
        }
      }
      if exists i :: 0 <= i < n && q == Shift(from, offs[..n][i]) {
        var i :| 0 <= i < n && q == Shift(from, offs[..n][i]);
        assert offs[i] == offs[..n][i];
      }
    }
  }

  /**
   * A ray visits p, p + d, p + 2d, ... in order (this lemma), every square but the last it takes
   * is empty, and the walk stops at the first occupied square, taking it exactly when it holds an
   * enemy or the walk is for raw attacks (RayStops).
   */
  lemma {:induction false} RayPositions(b: Board, p: Pos, d: Offset, color: Color, raw: bool)
    requires IsBoard(b) && IsDirection(d)
    ensures forall i :: 0 <= i < |Ray(b, p, d, color, raw)| ==>
      Ray(b, p, d, color, raw)[i] == Pos(p.row + i * d.0, p.col + i * d.1)
    decreases RayBudget(p, d)
  {
    if InBounds(p) && At(b, p).None? {
      var p' := Shift(p, d);
      RayPositions(b, p', d, color, raw);
      var t := Ray(b, p', d, color, raw);
      var r := Ray(b, p, d, color, raw);
      assert r == [p] + t;
      forall i | 0 < i < |r|
        ensures r[i] == Pos(p.row + i * d.0, p.col + i * d.1)
      {
        assert r[i] == t[i - 1];
        StepMul(i, d.0);
        StepMul(i, d.1);
      }
    }
  }

  /**
   * Every square of a ray but the last is empty, the last is taken only when it may be, and the
   * square after the last (p itself for an empty ray) ends the walk.
   */
  lemma {:induction false} RayStops(b: Board, p: Pos, d: Offset, color: Color, raw: bool)
    requires IsBoard(b) && IsDirection(d)
    ensures var r := Ray(b, p, d, color, raw);
      && (forall i :: 0 <= i < |r| - 1 ==> At(b, r[i]).None?)
      && (|r| > 0 && At(b, r[|r| - 1]).Some? ==> raw || At(b, r[|r| - 1]).value.color != color)
      && (var stop := if |r| == 0 then p else Shift(r[|r| - 1], d);
          (|r| == 0 || At(b, r[|r| - 1]).None?) ==> !InBounds(stop) || (!raw && HasColor(At(b, stop), color)))
    decreases RayBudget(p, d)
  {
    if InBounds(p) && At(b, p).None? {
      var p' := Shift(p, d);
      RayStops(b, p', d, color, raw);
      var t := Ray(b, p', d, color, raw);
      var r := Ray(b, p, d, color, raw);
      assert r == [p] + t;
      forall i | 0 <= i < |r| - 1
        ensures At(b, r[i]).None?
      {
        if i > 0 {
          assert r[i] == t[i - 1];
        }
      }
    }
  }

  /** Proof helper, not a property of the rules: one more step along a direction component, (i - 1) * k + k == i * k. */
  lemma StepMul(i: int, k: int)
    ensures (i - 1) * k + k == i * k
  {
  }

  /** Every candidate target is off the mover's colour, except possibly a pawn's en passant target. */
  lemma CandidatesNotOwn(s: State, from: Pos, q: Pos)
    requires WellFormed(s) && InBounds(from) && At(s.board, from).Some?
    requires q in Candidates(s, from)
    ensures !HasColor(At(s.board, q), At(s.board, from).value.color) || (At(s.board, from).value.kind == Pawn && s.ep == Some(q))
  {
    var pc := At(s.board, from).value;
    if pc.kind == King {
      if q in Castling(s, from, pc) {
        assert q == Pos(from.row, 6) || q == Pos(from.row, 2);
      }
    }
  }

  /** The en passant target, when set, is an empty square. */
  predicate EpEmpty(s: State)
    requires WellFormed(s)
  {
    s.ep.Some? ==> At(s.board, s.ep.value).None?
  }

  // ---------------------------------------------------------------- the king-safety filter

  /** A target survives the filter exactly when it is a candidate that leaves the mover's king unattacked. */
  lemma {:induction false} SafeTargetsIff(s: State, from: Pos, cands: seq<Pos>, q: Pos)
    requires WellFormed(s) && InBounds(from) && At(s.board, from).Some?
    requires forall x :: x in cands ==> InBounds(x)
    ensures q in SafeTargets(s, from, cands) <==>
      q in cands && !InCheck(Apply(s, from, q).board, At(s.board, from).value.color)
    decreases |cands|
  {
    if cands != [] {
      var n := |cands| - 1;
      SafeTargetsIff(s, from, cands[..n], q);
      assert cands == cands[..n] + [cands[n]];
    }
  }

  /**
   * getLegalMoves(from) holds exactly the candidates of the piece on `from` after which, on the
   * cloned board, the mover's colour is not in check.
   */
  lemma LegalMovesSafe(s: State, from: Pos, q: Pos)
    requires WellFormed(s)
    ensures q in LegalMoves(s, from) <==>
      && InBounds(from) && At(s.board, from).Some?
      && q in Candidates(s, from)
      && !InCheck(Apply(s, from, q).board, At(s.board, from).value.color)
  {
    if InBounds(from) && At(s.board, from).Some? {
      SafeTargetsIff(s, from, Candidates(s, from), q);
    }
  }

  /** While the en passant target is empty, no legal target holds a piece of the mover's colour. */
  lemma LegalTargetNotOwn(s: State, from: Pos, q: Pos)
    requires WellFormed(s) && EpEmpty(s)
    requires q in LegalMoves(s, from)
    ensures InBounds(from) && At(s.board, from).Some? && InBounds(q)
    ensures !HasColor(At(s.board, q), At(s.board, from).value.color)
  {
    LegalMovesSafe(s, from, q);
    CandidatesNotOwn(s, from, q);
  }

  /** A king's legal move of two columns is castling, offered only under all the castling conditions. */
  lemma CastlingConditions(s: State, from: Pos, q: Pos)
    requires WellFormed(s) && InBounds(from) && At(s.board, from).Some? && At(s.board, from).value.kind == King
    requires q in LegalMoves(s, from) && Distance(q.col, from.col) == 2
    ensures var pc := At(s.board, from).value;
      && !Moved(s.hasMoved, pc.id) && !InCheck(s.board, pc.color)
      && ((q == Pos(from.row, 6) && CastleShort(s, from.row, pc.color))
          || (q == Pos(from.row, 2) && CastleLong(s, from.row, pc.color)))
  {
    var pc := At(s.board, from).value;
    assert q in Candidates(s, from);
    if q in Steps(s.board, from, KingOffsets, pc.color, false) {
      StepsTargets(s.board, from, KingOffsets, pc.color, false, q);
      assert false;
    }
  }

  /** A pawn's candidate two rows away is its double push: same column, from the start row, over an empty square. */
  lemma DoublePush(s: State, from: Pos, to: Pos)
    requires WellFormed(s) && InBounds(from) && At(s.board, from).Some? && At(s.board, from).value.kind == Pawn
    requires to in Candidates(s, from) && Distance(to.row, from.row) == 2
    ensures var c := At(s.board, from).value.color;
      && to.col == from.col && from.row == StartRow(c) && to.row == from.row + 2 * Forward(c)
      && At(s.board, Pos(from.row + Forward(c), from.col)).None?
  {
    var pc := At(s.board, from).value;
    var caps := PawnCaptures(s.board, from, pc.color, s.ep, [-1, 1]);
    assert to !in caps;
  }

  // ---------------------------------------------------------------- applyMove

  /**
   * After applyMove: the turn is flipped, the history has grown by exactly (from, to), the
   * mover's id is marked as moved with every other entry kept, `from` is empty, and `to` holds
   * the mover, or a queen of its colour when a pawn reached its last row.
   */
  lemma ApplyBasics(s: State, from: Pos, to: Pos)
    requires WellFormed(s) && InBounds(from) && InBounds(to) && At(s.board, from).Some? && from != to
    ensures var pc := At(s.board, from).value;
      var r := Apply(s, from, to);
      && r.turn == Opponent(s.turn)
      && r.history == s.history + [Move(from, to)]
      && Moved(r.hasMoved, pc.id)
      && (forall id :: id != pc.id ==> (Moved(r.hasMoved, id) <==> Moved(s.hasMoved, id)))
      && At(r.board, from).None?
      && At(r.board, to) == (if pc.kind == Pawn && to.row == LastRow(pc.color)
                            then Some(Piece(Uid(s.nextId), Queen, pc.color)) else Some(pc))
  {
  }

  /**
   * applyMove changes no square but `from`, `to`, the square of a pawn taken en passant and
   * the two squares of a castling rook.
   */
  lemma ApplyFrame(s: State, from: Pos, to: Pos, q: Pos)
    requires WellFormed(s) && InBounds(from) && InBounds(to) && At(s.board, from).Some? && InBounds(q)
    requires q != from && q != to
    requires At(s.board, from).value.kind == Pawn && s.ep == Some(to) ==>
      q != Pos(to.row + CaptureDir(At(s.board, from).value.color), to.col)
    requires At(s.board, from).value.kind == King && Distance(to.col, from.col) == 2 ==>
      q.row != from.row || (q.col != 0 && q.col != 3 && q.col != 5 && q.col != 7)
    ensures At(Apply(s, from, to).board, q) == At(s.board, q)
  {
  }

  /**
   * The en passant bookkeeping: the target is set to the skipped square after a two-row pawn
   * move and cleared after any other move; a pawn landing on the old target removes the piece
   * one row behind it.
   */
  lemma ApplyEnPassant(s: State, from: Pos, to: Pos)
    requires WellFormed(s) && InBounds(from) && InBounds(to) && At(s.board, from).Some?
    ensures var pc := At(s.board, from).value;
      var r := Apply(s, from, to);
      && (r.ep.Some? <==> pc.kind == Pawn && Distance(to.row, from.row) == 2)
      && (r.ep.Some? ==> r.ep.value == Pos((from.row + to.row) / 2, from.col))
      && (pc.kind == Pawn && s.ep == Some(to) ==> At(r.board, Pos(to.row + CaptureDir(pc.color), to.col)).None?)
  {
  }

  /** Castling moves the rook from column 7 to 5 (short) or from 0 to 3 (long) on the king's row. */
  lemma ApplyCastlingRook(s: State, from: Pos, to: Pos)
    requires WellFormed(s) && InBounds(from) && InBounds(to) && At(s.board, from).Some?
    requires At(s.board, from).value.kind == King && from.col == 4
    ensures var r := Apply(s, from, to);
      && (to.col == 6 ==> At(r.board, Pos(from.row, 5)) == At(s.board, Pos(from.row, 7)) && At(r.board, Pos(from.row, 7)).None?)
      && (to.col == 2 ==> At(r.board, Pos(from.row, 3)) == At(s.board, Pos(from.row, 0)) && At(r.board, Pos(from.row, 0)).None?)
  {
  }

  /** Every piece with an id got it from the counter (ids below n), and only queens are given one. */
  ghost predicate IdsIssued(b: Board, n: nat)
    requires IsBoard(b)
  {
    forall q :: InBounds(q) && At(b, q).Some? && At(b, q).value.id.Uid? ==>
      At(b, q).value.id.n < n && At(b, q).value.kind == Queen
  }

  lemma SetKeepsIds(b: Board, p: Pos, sq: Square, n: nat)
    requires IsBoard(b) && InBounds(p) && IdsIssued(b, n)
    requires sq.Some? && sq.value.id.Uid? ==> sq.value.id.n < n && sq.value.kind == Queen
    ensures IdsIssued(Set(b, p, sq), n)
  {
  }

  /**
   * Promotion draws a fresh id: the queen's id is the counter's value, held by no other piece,
   * and afterwards every issued id is again below the counter.
   */
  lemma ApplyKeepsIds(s: State, from: Pos, to: Pos)
    requires WellFormed(s) && InBounds(from) && InBounds(to) && At(s.board, from).Some?
    requires IdsIssued(s.board, s.nextId)
    ensures var r := Apply(s, from, to);
      && IdsIssued(r.board, r.nextId)
      && r.nextId == (if At(s.board, from).value.kind == Pawn && to.row == LastRow(At(s.board, from).value.color)
                      then s.nextId + 1 else s.nextId)
    ensures forall q :: InBounds(q) && At(s.board, q).Some? ==> At(s.board, q).value.id != Uid(s.nextId)
  {
    var pc := At(s.board, from).value;
    var b1 := CaptureEnPassant(s.board, pc, s.ep, to);
    if pc.kind == Pawn && s.ep == Some(to) {
      SetKeepsIds(s.board, Pos(to.row + CaptureDir(pc.color), to.col), None, s.nextId);
    }
    assert IdsIssued(b1, s.nextId);
    var b2 := MoveRook(b1, pc, from, to);
    if pc.kind == King && Distance(to.col, from.col) == 2 {
      if to.col == 6 {
        SetKeepsIds(b1, Pos(from.row, 5), At(b1, Pos(from.row, 7)), s.nextId);
        SetKeepsIds(Set(b1, Pos(from.row, 5), At(b1, Pos(from.row, 7))), Pos(from.row, 7), None, s.nextId);
      } else if to.col == 2 {
        SetKeepsIds(b1, Pos(from.row, 3), At(b1, Pos(from.row, 0)), s.nextId);
        SetKeepsIds(Set(b1, Pos(from.row, 3), At(b1, Pos(from.row, 0))), Pos(from.row, 0), None, s.nextId);
      }
    }
    assert IdsIssued(b2, s.nextId);
    assert At(s.board, from) == Some(pc);
    SetKeepsIds(b2, to, Some(pc), s.nextId);
    var b3 := Set(Set(b2, to, Some(pc)), from, None);
    SetKeepsIds(Set(b2, to, Some(pc)), from, None, s.nextId);
    if pc.kind == Pawn && to.row == LastRow(pc.color) {
      SetKeepsIds(b3, to, Some(Piece(Uid(s.nextId), Queen, pc.color)), s.nextId + 1);
    }
  }

  // ---------------------------------------------------------------- makeMove

  /**
   * makeMove is rejected—board, turn, has-moved map, en passant target and history all
   * unchanged—exactly when `from` is empty or `to` is not a legal target; otherwise it is applyMove.
   */
  lemma PlayOutcome(s: State, from: Pos, to: Pos)
    requires WellFormed(s)
    ensures var (ok, r) := Play(s, from, to);
      && (!ok <==> !InBounds(from) || At(s.board, from).None? || to !in LegalMoves(s, from))
      && (!ok ==> r.board == s.board && r.turn == s.turn && r.hasMoved == s.hasMoved && r.ep == s.ep && r.history == s.history)
      && (ok ==> r == Apply(s, from, to))
  {
  }

  /** The legal targets of a square do not depend on whose turn it is. */
  lemma {:induction false} SafeTargetsIgnoreTurn(s: State, t: Color, from: Pos, cands: seq<Pos>)
    requires WellFormed(s) && InBounds(from) && At(s.board, from).Some?
    requires forall x :: x in cands ==> InBounds(x)
    ensures SafeTargets(s.(turn := t), from, cands) == SafeTargets(s, from, cands)
    decreases |cands|
  {
    if cands != [] {
      var n := |cands| - 1;
      SafeTargetsIgnoreTurn(s, t, from, cands[..n]);
      assert Apply(s.(turn := t), from, cands[n]).board == Apply(s, from, cands[n]).board;
    }
  }

  lemma LegalMovesIgnoreTurn(s: State, t: Color, from: Pos)
    requires WellFormed(s)
    ensures LegalMoves(s.(turn := t), from) == LegalMoves(s, from)
  {
    if InBounds(from) && At(s.board, from).Some? {
      var pc := At(s.board, from).value;
      if pc.kind == King {
        assert Castling(s.(turn := t), from, pc) == Castling(s, from, pc);
      }
      assert Candidates(s.(turn := t), from) == Candidates(s, from);
      SafeTargetsIgnoreTurn(s, t, from, Candidates(s, from));
    }
  }

  /**
   * makeMove never consults the turn: it accepts the same moves whoever is to move, and
   * leaves the same board behind.
   */
  lemma PlayIgnoresTurn(s: State, t: Color, from: Pos, to: Pos)
    requires WellFormed(s)
    ensures Play(s.(turn := t), from, to).0 == Play(s, from, to).0
    ensures Play(s.(turn := t), from, to).1.board == Play(s, from, to).1.board
  {
    LegalMovesIgnoreTurn(s, t, from);
  }

  /**
   * A pawn's two-row legal move is its double push, so the square it skips was empty and stays
   * empty: the en passant target a played move leaves behind is always an empty square.
   */
  lemma PlayKeepsEpEmpty(s: State, from: Pos, to: Pos)
    requires WellFormed(s) && EpEmpty(s)
    ensures EpEmpty(Play(s, from, to).1)
  {
    if Play(s, from, to).0 {
      assert to in Candidates(s, from);
      ApplyKeepsEpEmpty(s, from, to);
    }
  }

  lemma ApplyKeepsEpEmpty(s: State, from: Pos, to: Pos)
    requires WellFormed(s) && InBounds(from) && At(s.board, from).Some? && to in Candidates(s, from)
    ensures EpEmpty(Apply(s, from, to))
  {
    var pc := At(s.board, from).value;
    var r := Apply(s, from, to);
    ApplyEnPassant(s, from, to);
    if pc.kind == Pawn && Distance(to.row, from.row) == 2 {
      DoublePush(s, from, to);
      var mid := Pos(from.row + Forward(pc.color), from.col);
      assert r.ep == Some(mid) by {
        assert (from.row + to.row) / 2 == from.row + Forward(pc.color);
      }
      if s.ep == Some(to) {
        assert mid == Pos(to.row + CaptureDir(pc.color), to.col);
      } else {
        ApplyFrame(s, from, to, mid);
      }
    }
  }

  /** Every state reached by a sequence of makeMove calls keeps an empty en passant target and issued ids. */
  lemma {:induction false} PlayAllInvariants(s: State, moves: seq<Move>)
    requires WellFormed(s) && EpEmpty(s) && IdsIssued(s.board, s.nextId)
    ensures var r := PlayAll(s, moves); EpEmpty(r) && IdsIssued(r.board, r.nextId)
    decreases |moves|
  {
    if moves != [] {
      var n := |moves| - 1;
      PlayAllInvariants(s, moves[..n]);
      var before := PlayAll(s, moves[..n]);
      PlayKeepsEpEmpty(before, moves[n].from, moves[n].to);
      if Play(before, moves[n].from, moves[n].to).0 {
        ApplyKeepsIds(before, moves[n].from, moves[n].to);
      }
    }
  }
}
