/**
 * The computer opponent of src/logic/ai.ts: the opening book, the choice playAIMove makes
 * (as a function of the engine state, the level and the values Math.random returned), and the
 * engine-level getAllLegalMoves, evaluateBoard, minimax, alphabeta and playAIMove, each proved
 * against its specification. Scores are in tenths of a pawn; the 0.01 jitter is left out.
 */
module AI {
  import opened Wrappers
  import opened Pieces
  import opened MoveGen
  import opened GameRules
  import opened GameTree
  import opened Search
  import opened ChessEngine

  /** AIDifficulty. */
  datatype Level = Easy | Medium | Hard

  /** A legal move tagged, as playAIMove tags it, with whether its target square was occupied. */
  datatype Candidate = Candidate(move: Move, capture: bool)

  /** The result of playAIMove; checkmate is absent for a move taken from the opening book. */
  datatype AIMove = AIMove(from: Pos, to: Pos, capture: bool, checkmate: Option<bool>)

  /** The values Math.random returned for the opening choice, the easy choice and the final choice. */
  datatype Draws = Draws(opening: real, easy: real, best: real)

  predicate ValidDraws(d: Draws) {
    0.0 <= d.opening < 1.0 && 0.0 <= d.easy < 1.0 && 0.0 <= d.best < 1.0
  }

  // ---------------------------------------------------------------- random choice

  /** Math.floor(r * n): the index a draw r in [0, 1) selects among n items. */
  function Pick(r: real, n: nat): (k: nat)
    requires 0.0 <= r < 1.0 && n > 0
    ensures k < n
  {
    var x := r * (n as real);
    assert x < n as real by {
      assert (1.0 - r) * (n as real) > 0.0;
    }
    x.Floor
  }

  /** Every one of the n items is selected by some draw, so a choice by Pick is a free choice. */
  lemma PickReaches(k: nat, n: nat)
    requires k < n
    ensures var r := (k as real) / (n as real); 0.0 <= r < 1.0 && Pick(r, n) == k
  {
    var r := (k as real) / (n as real);
    assert r * (n as real) == k as real;
  }

  // ---------------------------------------------------------------- opening book

  /** openingBook: two scripted openings of two moves for each colour. */
  function Openings(c: Color): (book: seq<seq<Move>>)
    ensures |book| == 2 && |book[0]| == 2 && |book[1]| == 2
  {
    if c == White then
      [[Move(Pos(6, 4), Pos(4, 4)), Move(Pos(7, 6), Pos(5, 5))],
       [Move(Pos(6, 3), Pos(4, 3)), Move(Pos(7, 1), Pos(5, 2))]]
    else
      [[Move(Pos(1, 4), Pos(3, 4)), Move(Pos(0, 6), Pos(2, 5))],
       [Move(Pos(1, 3), Pos(3, 3)), Move(Pos(0, 1), Pos(2, 2))]]
  }

  /**
   * The book move playAIMove considers, if any: the book is consulted below the easy level
   * while fewer than four moves were made, and `opening[turnNumber / 2]` only names a move for
   * an even number of moves (an odd count gives a fractional index, which reads as undefined).
   */
  function BookMove(s: State, level: Level, d: Draws): (m: Option<Move>)
    requires ValidDraws(d)
    ensures m.Some? ==> level != Easy && (|s.history| == 0 || |s.history| == 2)
    ensures m.Some? ==> m.value in Openings(s.turn)[0] + Openings(s.turn)[1]
  {
    var turnNumber := |s.history|;
    if level != Easy && turnNumber < 4 then
      var opening := Openings(s.turn)[Pick(d.opening, 2)];
      if turnNumber % 2 == 0 then Some(opening[turnNumber / 2]) else None
    else None
  }

  /** The book move is played only when it is a legal target of the square it starts from. */
  function BookPick(s: State, level: Level, d: Draws): (m: Option<Move>)
    requires WellFormed(s) && ValidDraws(d)
    ensures m.Some? ==> InBounds(m.value.from) && m.value.to in LegalMoves(s, m.value.from)
  {
    match BookMove(s, level, d)
    case Some(move) => if move.to in LegalMoves(s, move.from) then Some(move) else None
    case None => None
  }

  // ---------------------------------------------------------------- candidates

  /** Each move tagged with whether its target square is occupied on b. */
  function Tag(b: Board, moves: seq<Move>): (cs: seq<Candidate>)
    requires IsBoard(b) && forall m :: m in moves ==> InBounds(m.to)
    ensures |cs| == |moves|
  {
    seq(|moves|, k requires 0 <= k < |moves| => Candidate(moves[k], At(b, moves[k].to).Some?))
  }

  /** playAIMove's legalMoves: every legal move of the side to move, tagged as a capture or not. */
  function LegalCandidates(s: State): (cs: seq<Candidate>)
    requires WellFormed(s)
    ensures |cs| == |AllLegalMoves(s)|
  {
    Tag(s.board, AllLegalMoves(s))
  }

  /**
   * The k-th candidate is the k-th listed move: a legal move of a piece of the side to move,
   * marked as a capture exactly when its target square is occupied.
   */
  lemma CandidateIsLegal(s: State, k: int)
    requires WellFormed(s) && 0 <= k < |LegalCandidates(s)|
    ensures var c := LegalCandidates(s)[k];
      && c.move in AllLegalMoves(s)
      && InBounds(c.move.from) && HasColor(At(s.board, c.move.from), s.turn)
      && c.move.to in LegalMoves(s, c.move.from)
      && (c.capture <==> At(s.board, c.move.to).Some?)
  {
    var m := AllLegalMoves(s)[k];
    AllLegalMovesIff(s, m);
  }

  // ---------------------------------------------------------------- mate in one

  /** After the move (on a clone) the side then to move has no legal move and is in check. */
  predicate Mates(s: State, m: Move)
    requires WellFormed(s)
  {
    Mated(Child(s, m))
  }

  /** The index of the first candidate from i on whose move passes the test, in scan order. */
  function FirstWhere(test: Move -> bool, cands: seq<Candidate>, i: nat): (k: Option<nat>)
    requires i <= |cands|
    ensures k.Some? ==> i <= k.value < |cands| && test(cands[k.value].move)
    ensures k.Some? ==> forall j :: i <= j < k.value ==> !test(cands[j].move)
    ensures k.None? ==> forall j :: i <= j < |cands| ==> !test(cands[j].move)
    decreases |cands| - i
  {
    if i == |cands| then None
    else if test(cands[i].move) then Some(i)
    else FirstWhere(test, cands, i + 1)
  }

  /** A test that passes exactly the candidates that are found by the scan. */
  lemma FirstWhereFinds(test: Move -> bool, cands: seq<Candidate>, k: nat)
    requires k < |cands| && test(cands[k].move)
    ensures FirstWhere(test, cands, 0).Some? && FirstWhere(test, cands, 0).value <= k
  {
  }

  /** The test of the mate-in-one scan. */
  function MateTest(s: State): Move -> bool
    requires WellFormed(s)
  {
    m => Mates(s, m)
  }

  /** The mate-in-one scan of playAIMove: the index of the first candidate from i on that mates. */
  function FirstMate(s: State, cands: seq<Candidate>, i: nat): Option<nat>
    requires WellFormed(s) && i <= |cands|
  {
    FirstWhere(MateTest(s), cands, i)
  }

  // ---------------------------------------------------------------- easy

  /** legalMoves.filter(m => m.capture). */
  function Captures(cands: seq<Candidate>): (r: seq<Candidate>)
    decreases |cands|
  {
    if cands == [] then []
    else
      var n := |cands| - 1;
      Captures(cands[..n]) + (if cands[n].capture then [cands[n]] else [])
  }

  /** The filter keeps exactly the capturing candidates. */
  lemma {:induction false} CapturesIff(cands: seq<Candidate>, c: Candidate)
    ensures c in Captures(cands) <==> c in cands && c.capture
    decreases |cands|
  {
    if cands != [] {
      var n := |cands| - 1;
      CapturesIff(cands[..n], c);
      assert cands == cands[..n] + [cands[n]];
    }
  }

  // ---------------------------------------------------------------- medium and hard

  /**
   * The score of a candidate at the root: the position after the move searched for the AI
   * (the side to move now) with the opponent minimizing, by minimax to depth 0 on medium and
   * by alphabeta to depth 1 with the window (-Infinity, Infinity) on hard.
   */
  function RootScore(s: State, level: Level, m: Move): Value
    requires WellFormed(s)
  {
    var g := ChessGame(s.turn);
    var depth := SearchDepth(level);
    if level == Medium then Minimax(g, Child(s, m), depth - 1, false)
    else AlphaBeta(g, Child(s, m), depth - 1, NegInf, PosInf, false)
  }

  /** The search depth of a level: 1 on medium, 2 otherwise. */
  function SearchDepth(level: Level): (depth: nat)
    ensures depth >= 1
  {
    if level == Medium then 1 else 2
  }

  /**
   * Medium scores the position after the move by evaluateBoard; hard scores it by the minimax
   * value one ply deeper (the opponent's best reply). Either score is finite.
   */
  lemma RootScoreMeaning(s: State, level: Level, m: Move)
    requires WellFormed(s)
    ensures level == Medium ==> RootScore(s, level, m) == Fin(Evaluate(Child(s, m), s.turn))
    ensures level != Medium ==> RootScore(s, level, m) == Minimax(ChessGame(s.turn), Child(s, m), 1, false)
    ensures RootScore(s, level, m).Fin?
  {
    var g := ChessGame(s.turn);
    AlphaBetaIsMinimax(g, Child(s, m), 1, false);
    MinimaxFinite(g, Child(s, m), 1, false);
  }

  function Scores(s: State, level: Level, cands: seq<Candidate>): (vs: seq<Value>)
    requires WellFormed(s)
    ensures |vs| == |cands|
  {
    seq(|cands|, k requires 0 <= k < |cands| => RootScore(s, level, cands[k].move))
  }

  /** The best of the scores, starting from -Infinity as bestScore does. */
  function MaxOf(vs: seq<Value>): Value
    decreases |vs|
  {
    if vs == [] then NegInf else Max(MaxOf(vs[..|vs| - 1]), vs[|vs| - 1])
  }

  /** MaxOf bounds every score from above and, for a non-empty list, is one of them. */
  lemma {:induction false} MaxOfIsMax(vs: seq<Value>)
    ensures forall k :: 0 <= k < |vs| ==> Le(vs[k], MaxOf(vs))
    ensures vs != [] ==> exists k :: 0 <= k < |vs| && vs[k] == MaxOf(vs)
    decreases |vs|
  {
    if vs != [] {
      var n := |vs| - 1;
      MaxOfIsMax(vs[..n]);
      forall k | 0 <= k < n
        ensures Le(vs[k], MaxOf(vs))
      {
        assert vs[..n][k] == vs[k];
        LeTrans(vs[k], MaxOf(vs[..n]), MaxOf(vs));
      }
        assert MaxOf(vs) == Max(MaxOf(vs[..n]), vs[n]);
      if MaxOf(vs) != vs[n] {
        assert MaxOf(vs) == MaxOf(vs[..n]);
        var k :| 0 <= k < n && vs[..n][k] == MaxOf(vs[..n]);
        assert vs[k] == MaxOf(vs);
      }
    }
  }

  /** The candidates whose score is v, in order. */
  function Keep(cands: seq<Candidate>, vs: seq<Value>, v: Value): seq<Candidate>
    requires |cands| == |vs|
    decreases |cands|
  {
    if cands == [] then []
    else
      var n := |cands| - 1;
      Keep(cands[..n], vs[..n], v) + (if vs[n] == v then [cands[n]] else [])
  }

  /** A candidate is kept exactly when it sits at a position whose score is v. */
  lemma {:induction false} KeepIff(cands: seq<Candidate>, vs: seq<Value>, v: Value, c: Candidate)
    requires |cands| == |vs|
    ensures c in Keep(cands, vs, v) <==> exists k :: 0 <= k < |cands| && cands[k] == c && vs[k] == v
    decreases |cands|
  {
    if cands != [] {
      var n := |cands| - 1;
      KeepIff(cands[..n], vs[..n], v, c);
      if exists k :: 0 <= k < |cands| && cands[k] == c && vs[k] == v {
        var k :| 0 <= k < |cands| && cands[k] == c && vs[k] == v;
        if k < n {
          assert cands[..n][k] == c && vs[..n][k] == v;
        }
      }
      if exists k :: 0 <= k < n && cands[..n][k] == c && vs[..n][k] == v {
        var k :| 0 <= k < n && cands[..n][k] == c && vs[..n][k] == v;
        assert cands[k] == c && vs[k] == v;
      }
    }
  }

  /** No candidate is kept for a score nobody has. */
  lemma {:induction false} KeepNone(cands: seq<Candidate>, vs: seq<Value>, v: Value)
    requires |cands| == |vs| && forall k :: 0 <= k < |vs| ==> vs[k] != v
    ensures Keep(cands, vs, v) == []
    decreases |cands|
  {
    if cands != [] {
      var n := |cands| - 1;
      assert forall k :: 0 <= k < n ==> vs[..n][k] == vs[k];
      KeepNone(cands[..n], vs[..n], v);
    }
  }

  /** bestMoves: the candidates whose root score equals the best root score. */
  function Best(s: State, level: Level, cands: seq<Candidate>): seq<Candidate>
    requires WellFormed(s)
  {
    var vs := Scores(s, level, cands);
    Keep(cands, vs, MaxOf(vs))
  }

  /**
   * Keeping the candidates of the best score keeps exactly those whose score is at least every
   * other score, and keeps at least one when there is a candidate.
   */
  lemma KeepMaxIff(cands: seq<Candidate>, vs: seq<Value>, c: Candidate)
    requires |cands| == |vs|
    ensures c in Keep(cands, vs, MaxOf(vs)) <==>
      exists k :: 0 <= k < |cands| && cands[k] == c && forall j :: 0 <= j < |vs| ==> Le(vs[j], vs[k])
    ensures cands != [] ==> Keep(cands, vs, MaxOf(vs)) != []
  {
    var m := MaxOf(vs);
    MaxOfIsMax(vs);
    KeepIff(cands, vs, m, c);
    if exists k :: 0 <= k < |cands| && cands[k] == c && forall j :: 0 <= j < |vs| ==> Le(vs[j], vs[k]) {
      var k :| 0 <= k < |cands| && cands[k] == c && forall j :: 0 <= j < |vs| ==> Le(vs[j], vs[k]);
      var k' :| 0 <= k' < |vs| && vs[k'] == m;
      assert Le(vs[k'], vs[k]) && Le(vs[k], m);
    }
    if cands != [] {
      var k :| 0 <= k < |vs| && vs[k] == m;
      KeepIff(cands, vs, m, cands[k]);
    }
  }

  /**
   * bestMoves holds exactly the candidates with the best root score: each of its members scores
   * at least as much as every candidate, every candidate scoring that much is a member, and it
   * is never empty when there is a candidate.
   */
  lemma BestIff(s: State, level: Level, cands: seq<Candidate>, c: Candidate)
    requires WellFormed(s)
    ensures c in Best(s, level, cands) <==>
      exists k :: 0 <= k < |cands| && cands[k] == c &&
        forall j :: 0 <= j < |cands| ==> Le(RootScore(s, level, cands[j].move), RootScore(s, level, cands[k].move))
    ensures cands != [] ==> Best(s, level, cands) != []
  {
    var vs := Scores(s, level, cands);
    KeepMaxIff(cands, vs, c);
    if c in Best(s, level, cands) {
      var k :| 0 <= k < |cands| && cands[k] == c && forall j :: 0 <= j < |vs| ==> Le(vs[j], vs[k]);
      forall j | 0 <= j < |cands|
        ensures Le(RootScore(s, level, cands[j].move), RootScore(s, level, cands[k].move))
      {
        assert Le(vs[j], vs[k]);
      }
    }
    if exists k :: 0 <= k < |cands| && cands[k] == c &&
        forall j :: 0 <= j < |cands| ==> Le(RootScore(s, level, cands[j].move), RootScore(s, level, cands[k].move)) {
      var k :| 0 <= k < |cands| && cands[k] == c &&
        forall j :: 0 <= j < |cands| ==> Le(RootScore(s, level, cands[j].move), RootScore(s, level, cands[k].move));
      forall j | 0 <= j < |vs|
        ensures Le(vs[j], vs[k])
      {
        assert Le(RootScore(s, level, cands[j].move), RootScore(s, level, cands[k].move));
      }
    }
  }

  /** One round of the bestScore/bestMoves loop: a higher score restarts the list, an equal one joins it, a lower one is dropped. */
  lemma BestStep(cands: seq<Candidate>, vs: seq<Value>, i: nat)
    requires |cands| == |vs| && i < |vs|
    ensures var m := MaxOf(vs[..i]);
      var m' := MaxOf(vs[..i + 1]);
      && (Lt(m, vs[i]) ==> m' == vs[i] && Keep(cands[..i + 1], vs[..i + 1], m') == [cands[i]])
      && (vs[i] == m ==> m' == m && Keep(cands[..i + 1], vs[..i + 1], m') == Keep(cands[..i], vs[..i], m) + [cands[i]])
      && (!Lt(m, vs[i]) && vs[i] != m ==> m' == m && Keep(cands[..i + 1], vs[..i + 1], m') == Keep(cands[..i], vs[..i], m))
  {
    var m := MaxOf(vs[..i]);
    assert vs[..i + 1][..i] == vs[..i] && cands[..i + 1][..i] == cands[..i];
    assert vs[..i + 1][i] == vs[i] && cands[..i + 1][i] == cands[i];
    if Lt(m, vs[i]) {
      MaxOfIsMax(vs[..i]);
      forall k | 0 <= k < i
        ensures vs[..i][k] != vs[i]
      {
        assert Le(vs[..i][k], m);
      }
      KeepNone(cands[..i], vs[..i], vs[i]);
    }
  }

  // ---------------------------------------------------------------- the decision

  /** The pool the final draw chooses from: on easy one random capture (or any move), else bestMoves. */
  function Pool(s: State, level: Level, d: Draws, cands: seq<Candidate>): (pool: seq<Candidate>)
    requires WellFormed(s) && ValidDraws(d) && cands != []
    ensures pool != []
  {
    if level == Easy then
      var captures := Captures(cands);
      if |captures| > 0 then [captures[Pick(d.easy, |captures|)]] else [cands[Pick(d.easy, |cands|)]]
    else
      BestIff(s, level, cands, cands[0]);
      Best(s, level, cands)
  }

  /**
   * playAIMove: no move when the side to move has none; else the book move when one is
   * playable; else the first candidate that mates; else a draw from the pool. The checkmate
   * flag of a searched move says whether the position after it is mate.
   */
  function Decide(s: State, level: Level, d: Draws): Option<AIMove>
    requires WellFormed(s) && ValidDraws(d)
  {
    var cands := LegalCandidates(s);
    if cands == [] then None
    else match BookPick(s, level, d)
      case Some(m) => Some(AIMove(m.from, m.to, At(s.board, m.to).Some?, None))
      case None => Some(SearchChoice(s, level, d, cands))
  }

  /** The candidate playAIMove plays after the book: the first one that mates, else a draw from the pool. */
  function Chosen(s: State, level: Level, d: Draws, cands: seq<Candidate>): (c: Candidate)
    requires WellFormed(s) && ValidDraws(d) && cands != []
  {
    match FirstMate(s, cands, 0)
    case Some(k) => cands[k]
    case None =>
      var pool := Pool(s, level, d, cands);
      pool[Pick(d.best, |pool|)]
  }

  /**
   * The searched move of playAIMove: the chosen candidate, reported with checkmate true when it
   * was found by the mate-in-one scan and otherwise with whether the position after it is mate.
   */
  function SearchChoice(s: State, level: Level, d: Draws, cands: seq<Candidate>): (r: AIMove)
    requires WellFormed(s) && ValidDraws(d) && cands != []
    ensures r.checkmate.Some?
  {
    var c := Chosen(s, level, d, cands);
    AIMove(c.move.from, c.move.to, c.capture, Some(FirstMate(s, cands, 0).Some? || Mated(Child(s, c.move))))
  }

  /** The move Decide reports, as a move. */
  function Played(r: AIMove): Move {
    Move(r.from, r.to)
  }

  /** The pool holds candidates only. */
  lemma PoolFromCandidates(s: State, level: Level, d: Draws, cands: seq<Candidate>, c: Candidate)
    requires WellFormed(s) && ValidDraws(d) && cands != []
    requires c in Pool(s, level, d, cands)
    ensures c in cands
  {
    if level == Easy {
      var captures := Captures(cands);
      if |captures| > 0 {
        CapturesIff(cands, c);
      }
    } else {
      BestIff(s, level, cands, c);
    }
  }

  /** playAIMove returns no move exactly when the side to move has no legal move. */
  lemma DecideNoneIff(s: State, level: Level, d: Draws)
    requires WellFormed(s) && ValidDraws(d)
    ensures Decide(s, level, d).None? <==> !HasLegalMove(s, s.turn)
  {
    NoMovesIff(s);
  }

  /** Without a mating candidate, the searched move reports whether the position after it is mate. */
  lemma SearchChoiceNoMate(s: State, level: Level, d: Draws, cands: seq<Candidate>)
    requires WellFormed(s) && ValidDraws(d) && cands != [] && FirstMate(s, cands, 0).None?
    ensures var c := Chosen(s, level, d, cands);
      SearchChoice(s, level, d, cands) == AIMove(c.move.from, c.move.to, c.capture, Some(Mates(s, c.move)))
  {
  }

  /** The chosen candidate is one of the candidates. */
  lemma ChosenIsCandidate(s: State, level: Level, d: Draws, cands: seq<Candidate>)
    requires WellFormed(s) && ValidDraws(d) && cands != []
    ensures Chosen(s, level, d, cands) in cands
  {
    if FirstMate(s, cands, 0).None? {
      var pool := Pool(s, level, d, cands);
      PoolFromCandidates(s, level, d, cands, pool[Pick(d.best, |pool|)]);
    }
  }

  /**
   * A reported move is a legal move of the piece on its origin, with capture set exactly when
   * its target was occupied; a searched move (checkmate present) is one of the side to move's
   * listed legal moves, and a book move (checkmate absent) is the playable book move.
   */
  lemma DecideLegal(s: State, level: Level, d: Draws)
    requires WellFormed(s) && ValidDraws(d) && Decide(s, level, d).Some?
    ensures var r := Decide(s, level, d).value;
      && InBounds(r.from) && InBounds(r.to) && At(s.board, r.from).Some?
      && r.to in LegalMoves(s, r.from)
      && (r.capture <==> At(s.board, r.to).Some?)
      && (r.checkmate.Some? ==> Played(r) in AllLegalMoves(s) && HasColor(At(s.board, r.from), s.turn))
      && (r.checkmate.None? ==> BookPick(s, level, d) == Some(Played(r)))
  {
    var cands := LegalCandidates(s);
    match BookPick(s, level, d)
    case Some(m) =>
      RulesFacts.LegalMovesSafe(s, m.from, m.to);
    case None =>
      assert Decide(s, level, d) == Some(SearchChoice(s, level, d, cands));
      ChosenIsCandidate(s, level, d, cands);
      var k :| 0 <= k < |cands| && cands[k] == Chosen(s, level, d, cands);
      CandidateIsLegal(s, k);
  }

  /**
   * Without a playable book move, when some legal move mates, the first mating move in scan
   * order is played and reported with checkmate true.
   */
  lemma DecideMateFirst(s: State, level: Level, d: Draws, k: nat)
    requires WellFormed(s) && ValidDraws(d) && BookPick(s, level, d).None?
    requires k < |LegalCandidates(s)| && Mates(s, LegalCandidates(s)[k].move)
    ensures Decide(s, level, d).Some?
    ensures var r := Decide(s, level, d).value;
      && r.checkmate == Some(true) && Mates(s, Played(r))
      && exists i :: 0 <= i <= k && LegalCandidates(s)[i].move == Played(r)
           && forall j :: 0 <= j < i ==> !Mates(s, LegalCandidates(s)[j].move)
  {
    var cands := LegalCandidates(s);
    assert Decide(s, level, d) == Some(SearchChoice(s, level, d, cands));
    SearchChoiceMates(s, level, d, cands, k);
  }

  /** The searched choice when some candidate mates: the first mating candidate, flagged as mate. */
  lemma SearchChoiceMates(s: State, level: Level, d: Draws, cands: seq<Candidate>, k: nat)
    requires WellFormed(s) && ValidDraws(d)
    requires k < |cands| && Mates(s, cands[k].move)
    ensures var r := SearchChoice(s, level, d, cands);
      && r.checkmate == Some(true) && Mates(s, Played(r))
      && exists i :: 0 <= i <= k && cands[i].move == Played(r)
           && forall j :: 0 <= j < i ==> !Mates(s, cands[j].move)
  {
    assert MateTest(s)(cands[k].move);
    FirstWhereFinds(MateTest(s), cands, k);
    var i := FirstMate(s, cands, 0).value;
    assert Chosen(s, level, d, cands) == cands[i];
    assert forall j :: 0 <= j < i ==> !Mates(s, cands[j].move) by {
      assert forall j :: 0 <= j < i ==> !MateTest(s)(cands[j].move);
    }
  }

  /** On easy, with no mating candidate, the chosen candidate captures whenever some candidate does. */
  lemma EasyChoosesCapture(s: State, d: Draws, cands: seq<Candidate>, k: nat)
    requires WellFormed(s) && ValidDraws(d)
    requires FirstMate(s, cands, 0).None?
    requires k < |cands| && cands[k].capture
    ensures Chosen(s, Easy, d, cands).capture
  {
    CapturesIff(cands, cands[k]);
    var captures := Captures(cands);
    var c := captures[Pick(d.easy, |captures|)];
    assert Pool(s, Easy, d, cands) == [c];
    CapturesIff(cands, c);
  }

  /** On easy, with no mating move, a capture is played whenever one is available. */
  lemma EasyPrefersCapture(s: State, d: Draws, k: nat)
    requires WellFormed(s) && ValidDraws(d)
    requires FirstMate(s, LegalCandidates(s), 0).None?
    requires k < |LegalCandidates(s)| && LegalCandidates(s)[k].capture
    ensures var r := Decide(s, Easy, d); r.Some? && r.value.capture
  {
    var cands := LegalCandidates(s);
    EasyChoosesCapture(s, d, cands, k);
    assert Decide(s, Easy, d) == Some(SearchChoice(s, Easy, d, cands)) by {
      assert BookMove(s, Easy, d).None?;
    }
  }

  /**
   * On medium and hard, with no playable book move and no mating move, the played move has the
   * best root score of all legal moves of the side to move.
   */
  lemma SearchPlaysBest(s: State, level: Level, d: Draws)
    requires WellFormed(s) && ValidDraws(d) && level != Easy && HasLegalMove(s, s.turn)
    requires BookPick(s, level, d).None? && FirstMate(s, LegalCandidates(s), 0).None?
    ensures Decide(s, level, d).Some?
    ensures var r := Decide(s, level, d).value;
      forall m :: m in AllLegalMoves(s) ==> Le(RootScore(s, level, m), RootScore(s, level, Played(r)))
  {
    NoMovesIff(s);
    var cands := LegalCandidates(s);
    assert Decide(s, level, d) == Some(SearchChoice(s, level, d, cands));
    var pool := Pool(s, level, d, cands);
    var c := pool[Pick(d.best, |pool|)];
    assert Chosen(s, level, d, cands) == c;
    BestIff(s, level, cands, c);
    var k :| 0 <= k < |cands| && cands[k] == c &&
      forall j :: 0 <= j < |cands| ==> Le(RootScore(s, level, cands[j].move), RootScore(s, level, cands[k].move));
    forall m | m in AllLegalMoves(s)
      ensures Le(RootScore(s, level, m), RootScore(s, level, c.move))
    {
      var j :| 0 <= j < |AllLegalMoves(s)| && AllLegalMoves(s)[j] == m;
      assert cands[j].move == m;
    }
  }

  /**
   * On medium and hard every candidate of best root score is played for some final draw:
   * bestMoves is exactly the set the move is chosen from.
   */
  lemma SearchReachesEveryBest(s: State, level: Level, d: Draws, c: Candidate)
    requires WellFormed(s) && ValidDraws(d) && level != Easy
    requires BookPick(s, level, d).None? && FirstMate(s, LegalCandidates(s), 0).None?
    requires c in Best(s, level, LegalCandidates(s))
    ensures exists r: real :: 0.0 <= r < 1.0 && Decide(s, level, d.(best := r)) == Some(AIMove(c.move.from, c.move.to, c.capture, Some(Mates(s, c.move))))
  {
    var cands := LegalCandidates(s);
    var pool := Best(s, level, cands);
    var k :| 0 <= k < |pool| && pool[k] == c;
    PickReaches(k, |pool|);
    var r := (k as real) / (|pool| as real);
    var d' := d.(best := r);
    assert Chosen(s, level, d', cands) == c by {
      assert Pool(s, level, d', cands) == pool;
    }
    assert Decide(s, level, d') == Some(SearchChoice(s, level, d', cands)) by {
      assert BookMove(s, level, d') == BookMove(s, level, d);
      assert BookPick(s, level, d') == BookPick(s, level, d);
    }
    SearchChoiceNoMate(s, level, d', cands);
  }

  // ---------------------------------------------------------------- engine-level methods

  /** The inner loop of getAllLegalMoves: push (from, to) for every target, in order. */
  method PushTargets(moves: seq<Move>, from: Pos, tos: seq<Pos>) returns (res: seq<Move>)
    ensures res == moves + Targets(from, tos)
  {
    res := moves;
    for i := 0 to |tos|
      invariant res == moves + Targets(from, tos[..i])
    {
      res := res + [Move(from, tos[i])];
      assert tos[..i + 1][..i] == tos[..i];
    }
    assert tos[..|tos|] == tos;
  }

  /** One square of the getAllLegalMoves scan: a piece of the colour pushes its legal moves. */
  method ScanSquare(e: Engine, board: array2<Square>, color: Color, row: int, col: int, moves: seq<Move>)
    returns (res: seq<Move>)
    requires e.Valid() && board.Length0 == 8 && board.Length1 == 8 && Contents(board) == e.Rows
    requires 0 <= row < 8 && 0 <= col < 8
    ensures res + MovesFrom(e.Snapshot(), color, row, col + 1) == moves + MovesFrom(e.Snapshot(), color, row, col)
  {
    ghost var s := e.Snapshot();
    ghost var rest := MovesFrom(s, color, row, col + 1);
    var piece := board[row, col];
    res := moves;
    if piece.Some? && piece.value.color == color {
      var from := Pos(row, col);
      var tos := e.GetLegalMoves(from);
      res := PushTargets(res, from, tos);
      assert MovesFrom(s, color, row, col) == Targets(from, tos) + rest;
      Assoc(moves, Targets(from, tos), rest);
    } else {
      assert MovesFrom(s, color, row, col) == rest;
    }
  }

  /** getAllLegalMoves(engine): scan the board copy and push (from, to) for every legal target of the side to move. */
  method GetAllLegalMoves(e: Engine) returns (moves: seq<Move>)
    requires e.Valid()
    ensures moves == AllLegalMoves(e.Snapshot())
  {
    var board := e.GetBoard();
    var color := e.GetCurrentTurn();
    moves := [];
    for row := 0 to 8
      invariant Contents(board) == e.Rows
      invariant moves + MovesFrom(e.Snapshot(), color, row, 0) == AllLegalMoves(e.Snapshot())
    {
      for col := 0 to 8
        invariant Contents(board) == e.Rows
        invariant moves + MovesFrom(e.Snapshot(), color, row, col) == AllLegalMoves(e.Snapshot())
      {
        moves := ScanSquare(e, board, color, row, col, moves);
      }
    }
  }

  /** The square (row, col) is the (row * 8 + col)-th of the row-major loop. */
  lemma TallyStep(b: Board, aiColor: Color, row: int, col: int)
    requires IsBoard(b) && 0 <= row < 8 && 0 <= col < 8
    ensures TallyOf(b, aiColor, row * 8 + col + 1)
         == CountSquare(TallyOf(b, aiColor, row * 8 + col), b[row][col], aiColor, Pos(row, col))
  {
    assert SquareAt(row * 8 + col) == Pos(row, col);
  }

  /** The board loop of evaluateBoard: signed material, the piece count and the last enemy king seen. */
  method CountMaterial(board: array2<Square>, aiColor: Color) returns (t: Tally)
    requires board.Length0 == 8 && board.Length1 == 8
    ensures t == TallyOf(Contents(board), aiColor, 64)
  {
    t := Tally(0, 0, None);
    for row := 0 to 8
      invariant t == TallyOf(Contents(board), aiColor, row * 8)
    {
      t := CountRow(board, aiColor, row, t);
    }
  }

  /** One row of the board loop, square by square from column 0. */
  method CountRow(board: array2<Square>, aiColor: Color, row: int, t: Tally) returns (t': Tally)
    requires board.Length0 == 8 && board.Length1 == 8 && 0 <= row < 8
    requires t == TallyOf(Contents(board), aiColor, row * 8)
    ensures t' == TallyOf(Contents(board), aiColor, row * 8 + 8)
  {
    ghost var b := Contents(board);
    var score, pieceCount, enemyKingPos := t.material, t.pieces, t.enemyKing;
    for col := 0 to 8
      invariant Tally(score, pieceCount, enemyKingPos) == TallyOf(b, aiColor, row * 8 + col)
    {
      var piece := board[row, col];
      ghost var before := Tally(score, pieceCount, enemyKingPos);
      if piece.Some? {
        var value: int := PieceValue(piece.value.kind);
        score := score + (if piece.value.color == aiColor then value else -value);
        pieceCount := pieceCount + 1;
        if piece.value.kind == King && piece.value.color != aiColor {
          enemyKingPos := Some(Pos(row, col));
        }
      }
      assert Tally(score, pieceCount, enemyKingPos) == TallyOf(b, aiColor, row * 8 + col + 1) by {
        assert Tally(score, pieceCount, enemyKingPos) == CountSquare(before, piece, aiColor, Pos(row, col));
        assert piece == b[row][col];
        TallyStep(b, aiColor, row, col);
      }
    }
    t' := Tally(score, pieceCount, enemyKingPos);
  }

  /**
   * The mobility probe of evaluateBoard: count the moves of the side to move, flip the engine's
   * turn, count the opponent's, and restore the turn, leaving the engine as it was.
   */
  method MobilityProbe(e: Engine) returns (delta: int)
    requires e.Valid()
    modifies e`currentTurn
    ensures e.Valid() && e.Snapshot() == old(e.Snapshot())
    ensures delta == Mobility(old(e.Snapshot()))
  {
    ghost var s := e.Snapshot();
    var myMoves := GetAllLegalMoves(e);
    var originalTurn := e.GetCurrentTurn();
    e.currentTurn := Opponent(originalTurn);
    assert e.Snapshot() == s.(turn := Opponent(s.turn));
    var oppMoves := GetAllLegalMoves(e);
    e.currentTurn := originalTurn;
    delta := |myMoves| - |oppMoves|;
  }

  /**
   * evaluateBoard(engine.getBoard(), aiColor, engine): mate and stalemate first, then material,
   * mobility (0.1 per move, here 1) and the endgame corner term (0.5 per step, here 5).
   */
  method EvaluateBoard(e: Engine, aiColor: Color) returns (score: int)
    requires e.Valid()
    modifies e`currentTurn
    ensures e.Valid() && e.Snapshot() == old(e.Snapshot())
    ensures score == Evaluate(old(e.Snapshot()), aiColor)
  {
    var current := e.GetCurrentTurn();
    var any := e.HasAnyLegalMove(current);
    var check := e.IsInCheck(current);
    if !any && check {
      return if current != aiColor then MateScore else -MateScore;
    }
    if !any && !check {
      return 0;
    }
    score := Heuristic(e, aiColor);
  }

  /** The non-terminal part of evaluateBoard: material, mobility and the corner term. */
  method Heuristic(e: Engine, aiColor: Color) returns (score: int)
    requires e.Valid()
    modifies e`currentTurn
    ensures e.Valid() && e.Snapshot() == old(e.Snapshot())
    ensures var t := TallyOf(old(e.Snapshot()).board, aiColor, 64);
      score == t.material + Mobility(old(e.Snapshot())) + CornerBonus(t)
  {
    var t := Material(e, aiColor);
    score := t.material;
    var mobility := MobilityProbe(e);
    score := score + mobility;
    if t.pieces <= 5 && t.enemyKing.Some? {
      score := score + (14 - CornerDistance(t.enemyKing.value)) * 5;
    }
  }

  /** The board part of evaluateBoard, read from a copy of the engine's board. */
  method Material(e: Engine, aiColor: Color) returns (t: Tally)
    requires e.Valid()
    ensures t == TallyOf(e.Snapshot().board, aiColor, 64)
  {
    var board := e.GetBoard();
    t := CountMaterial(board, aiColor);
  }

  /** minimax(engine, depth, maximizing, aiColor), each move tried on a clone. */
  method MinimaxSearch(e: Engine, depth: nat, maximizing: bool, aiColor: Color) returns (v: Value)
    requires e.Valid()
    modifies e`currentTurn
    ensures e.Valid() && e.Snapshot() == old(e.Snapshot())
    ensures v == Minimax(ChessGame(aiColor), old(e.Snapshot()), depth, maximizing)
    decreases depth, 3
  {
    ghost var s: Position := e.Snapshot();
    var moves := GetAllLegalMoves(e);
    if depth == 0 || |moves| == 0 {
      var score := EvaluateBoard(e, aiColor);
      assert Fin(score) == Minimax(ChessGame(aiColor), s, depth, maximizing) by {
        assert moves == ChessGame(aiColor).moves(s);
      }
      return Fin(score);
    }
    v := MinimaxMoves(e, moves, depth, maximizing, aiColor);
  }

  /** A minimax node with legal moves: its move loop, each child searched one ply shallower. */
  method MinimaxMoves(e: Engine, moves: seq<Move>, depth: nat, maximizing: bool, aiColor: Color) returns (v: Value)
    requires e.Valid() && depth > 0 && moves == AllLegalMoves(e.Snapshot()) && moves != []
    ensures v == Minimax(ChessGame(aiColor), e.Snapshot(), depth, maximizing)
    decreases depth, 2
  {
    MinimaxEntry(e.Snapshot(), depth, maximizing, aiColor);
    v := MinimaxEvalLoop(e, moves, depth - 1, maximizing, aiColor);
  }

  /** The move loop of minimax: maxEval (minEval) over the children, starting from -Infinity (Infinity). */
  method MinimaxEvalLoop(e: Engine, moves: seq<Move>, childDepth: nat, maximizing: bool, aiColor: Color) returns (v: Value)
    requires e.Valid() && moves == AllLegalMoves(e.Snapshot())
    ensures v == MinimaxLoop(ChessGame(aiColor), e.Snapshot(), moves, 0, childDepth + 1, maximizing, if maximizing then NegInf else PosInf)
    decreases childDepth + 1, 1
  {
    ghost var s: Position := e.Snapshot();
    v := if maximizing then NegInf else PosInf;
    for i := 0 to |moves|
      invariant MinimaxLoop(ChessGame(aiColor), s, moves, i, childDepth + 1, maximizing, v)
        == MinimaxLoop(ChessGame(aiColor), s, moves, 0, childDepth + 1, maximizing, if maximizing then NegInf else PosInf)
    {
      var evalScore := MinimaxChild(e, moves[i], childDepth, !maximizing, aiColor);
      MinimaxMoveStep(s, i, childDepth, maximizing, aiColor, v, evalScore);
      v := if maximizing then Max(v, evalScore) else Min(v, evalScore);
    }
  }

  /** One iteration of minimax: the value of the position after the move, searched on a clone to the given depth. */
  method MinimaxChild(e: Engine, move: Move, depth: nat, maximizing: bool, aiColor: Color) returns (v: Value)
    requires e.Valid() && InBounds(move.from)
    ensures v == Minimax(ChessGame(aiColor), Child(e.Snapshot(), move), depth, maximizing)
    decreases depth + 1, 0
  {
    ghost var s := e.Snapshot();
    var cloned := e.Clone();
    var moved := cloned.MakeMove(move.from, move.to);
    ghost var c := cloned.Snapshot();
    assert c == Child(s, move);
    v := MinimaxSearch(cloned, depth, maximizing, aiColor);
    assert e.Snapshot() == s;
  }

  /** alphabeta(engine, depth, alpha, beta, maximizing, aiColor), each move tried on a clone. */
  method AlphaBetaSearch(e: Engine, depth: nat, alpha: Value, beta: Value, maximizing: bool, aiColor: Color) returns (v: Value)
    requires e.Valid()
    modifies e`currentTurn
    ensures e.Valid() && e.Snapshot() == old(e.Snapshot())
    ensures v == AlphaBeta(ChessGame(aiColor), old(e.Snapshot()), depth, alpha, beta, maximizing)
    decreases depth, 3
  {
    ghost var s: Position := e.Snapshot();
    var moves := GetAllLegalMoves(e);
    if depth == 0 || |moves| == 0 {
      var score := EvaluateBoard(e, aiColor);
      assert Fin(score) == AlphaBeta(ChessGame(aiColor), s, depth, alpha, beta, maximizing) by {
        assert moves == ChessGame(aiColor).moves(s);
      }
      return Fin(score);
    }
    v := AlphaBetaMoves(e, moves, depth, alpha, beta, maximizing, aiColor);
  }

  /** The move loops of alphabeta: the maximizing or the minimizing one, by whose turn the node is. */
  method AlphaBetaMoves(e: Engine, moves: seq<Move>, depth: nat, alpha: Value, beta: Value, maximizing: bool, aiColor: Color)
    returns (v: Value)
    requires e.Valid() && depth > 0 && moves == AllLegalMoves(e.Snapshot()) && moves != []
    ensures v == AlphaBeta(ChessGame(aiColor), e.Snapshot(), depth, alpha, beta, maximizing)
    decreases depth, 2
  {
    AlphaBetaEntry(e.Snapshot(), depth, alpha, beta, maximizing, aiColor);
    if maximizing {
      v := AlphaBetaMax(e, moves, depth - 1, alpha, beta, aiColor);
    } else {
      v := AlphaBetaMin(e, moves, depth - 1, alpha, beta, aiColor);
    }
  }

  /** The maximizing branch of alphabeta: maxEval over the children, raising alpha, cut off once beta <= alpha. */
  method AlphaBetaMax(e: Engine, moves: seq<Move>, childDepth: nat, alpha: Value, beta: Value, aiColor: Color) returns (v: Value)
    requires e.Valid() && moves == AllLegalMoves(e.Snapshot())
    ensures v == MaxLoop(ChessGame(aiColor), e.Snapshot(), moves, 0, childDepth + 1, alpha, beta, NegInf)
    decreases childDepth + 1, 1
  {
    ghost var s: Position := e.Snapshot();
    var a := alpha;
    v := NegInf;
    var i := 0;
    while i < |moves|
      invariant 0 <= i <= |moves|
      invariant MaxLoop(ChessGame(aiColor), s, moves, i, childDepth + 1, a, beta, v) == MaxLoop(ChessGame(aiColor), s, moves, 0, childDepth + 1, alpha, beta, NegInf)
    {
      var score := AlphaBetaChild(e, moves[i], childDepth, a, beta, false, aiColor);
      MaxMoveStep(s, i, childDepth, a, beta, v, aiColor, score);
      v := Max(v, score);
      a := Max(a, v);
      if Le(beta, a) {
        return;
      }
      i := i + 1;
    }
  }

  /** The minimizing branch of alphabeta: minEval over the children, lowering beta, cut off once beta <= alpha. */
  method AlphaBetaMin(e: Engine, moves: seq<Move>, childDepth: nat, alpha: Value, beta: Value, aiColor: Color) returns (v: Value)
    requires e.Valid() && moves == AllLegalMoves(e.Snapshot())
    ensures v == MinLoop(ChessGame(aiColor), e.Snapshot(), moves, 0, childDepth + 1, alpha, beta, PosInf)
    decreases childDepth + 1, 1
  {
    ghost var s: Position := e.Snapshot();
    var b := beta;
    v := PosInf;
    var i := 0;
    while i < |moves|
      invariant 0 <= i <= |moves|
      invariant MinLoop(ChessGame(aiColor), s, moves, i, childDepth + 1, alpha, b, v) == MinLoop(ChessGame(aiColor), s, moves, 0, childDepth + 1, alpha, beta, PosInf)
    {
      var score := AlphaBetaChild(e, moves[i], childDepth, alpha, b, true, aiColor);
      MinMoveStep(s, i, childDepth, alpha, b, v, aiColor, score);
      v := Min(v, score);
      b := Min(b, v);
      if Le(b, alpha) {
        return;
      }
      i := i + 1;
    }
  }

  /** One iteration of alphabeta: the position after the move, searched on a clone to the given depth with the current window. */
  method AlphaBetaChild(e: Engine, move: Move, depth: nat, alpha: Value, beta: Value, maximizing: bool, aiColor: Color)
    returns (v: Value)
    requires e.Valid() && InBounds(move.from)
    ensures v == AlphaBeta(ChessGame(aiColor), Child(e.Snapshot(), move), depth, alpha, beta, maximizing)
    decreases depth + 1, 0
  {
    ghost var s := e.Snapshot();
    var cloned := e.Clone();
    var moved := cloned.MakeMove(move.from, move.to);
    ghost var c := cloned.Snapshot();
    assert c == Child(s, move);
    v := AlphaBetaSearch(cloned, depth, alpha, beta, maximizing, aiColor);
    assert e.Snapshot() == s;
  }

  /** The legalMoves list of playAIMove: the side to move's legal moves, tagged from the board copy. */
  method CollectCandidates(e: Engine, board: array2<Square>) returns (legalMoves: seq<Candidate>)
    requires e.Valid() && board.Length0 == 8 && board.Length1 == 8 && Contents(board) == e.Rows
    ensures legalMoves == LegalCandidates(e.Snapshot())
  {
    var moves := GetAllLegalMoves(e);
    legalMoves := TagMoves(board, moves);
  }

  /** The tagging loop of playAIMove: each move with whether the board copy has a piece on its target. */
  method TagMoves(board: array2<Square>, moves: seq<Move>) returns (legalMoves: seq<Candidate>)
    requires board.Length0 == 8 && board.Length1 == 8
    requires forall m :: m in moves ==> InBounds(m.to)
    ensures legalMoves == Tag(Contents(board), moves)
  {
    ghost var b := Contents(board);
    legalMoves := [];
    for i := 0 to |moves|
      invariant legalMoves == Tag(b, moves[..i])
    {
      var target := board[moves[i].to.row, moves[i].to.col];
      legalMoves := legalMoves + [Candidate(moves[i], target.Some?)];
      assert Tag(b, moves[..i + 1]) == Tag(b, moves[..i]) + [Candidate(moves[i], At(b, moves[i].to).Some?)];
    }
    assert moves[..|moves|] == moves;
  }

  /** The mate-in-one scan of playAIMove: the first candidate after which (on a clone) the opponent is mated. */
  method FindMatingMove(e: Engine, legalMoves: seq<Candidate>) returns (k: Option<nat>)
    requires e.Valid()
    requires forall j :: 0 <= j < |legalMoves| ==> InBounds(legalMoves[j].move.from)
    ensures k == FirstMate(e.Snapshot(), legalMoves, 0)
  {
    ghost var s := e.Snapshot();
    for i := 0 to |legalMoves|
      invariant FirstMate(s, legalMoves, 0) == FirstMate(s, legalMoves, i)
    {
      var mate := MatesOnClone(e, legalMoves[i].move);
      if mate {
        return Some(i);
      }
    }
    return None;
  }

  /** One probe of the scan: make the move on a clone and ask whether the side then to move is mated. */
  method MatesOnClone(e: Engine, move: Move) returns (mate: bool)
    requires e.Valid() && InBounds(move.from)
    ensures mate == Mates(e.Snapshot(), move)
  {
    var cloned := e.Clone();
    var moved := cloned.MakeMove(move.from, move.to);
    var enemyTurn := cloned.GetCurrentTurn();
    var any := cloned.HasAnyLegalMove(enemyTurn);
    var check := cloned.IsInCheck(enemyTurn);
    mate := !any && check;
  }

  /** legalMoves.filter(m => m.capture). */
  method FilterCaptures(legalMoves: seq<Candidate>) returns (captures: seq<Candidate>)
    ensures captures == Captures(legalMoves)
  {
    captures := [];
    for i := 0 to |legalMoves|
      invariant captures == Captures(legalMoves[..i])
    {
      if legalMoves[i].capture {
        captures := captures + [legalMoves[i]];
      }
      assert legalMoves[..i + 1][..i] == legalMoves[..i];
    }
    assert legalMoves[..|legalMoves|] == legalMoves;
  }

  /** The medium/hard loop of playAIMove: score every candidate on a clone and keep those of the best score. */
  method BestMoves(e: Engine, legalMoves: seq<Candidate>, level: Level) returns (bestMoves: seq<Candidate>)
    requires e.Valid() && level != Easy
    requires forall j :: 0 <= j < |legalMoves| ==> InBounds(legalMoves[j].move.from)
    ensures bestMoves == Best(e.Snapshot(), level, legalMoves)
  {
    ghost var s := e.Snapshot();
    ghost var vs := Scores(s, level, legalMoves);
    var bestScore := NegInf;
    bestMoves := [];
    for i := 0 to |legalMoves|
      invariant bestScore == MaxOf(vs[..i]) && bestMoves == Keep(legalMoves[..i], vs[..i], bestScore)
    {
      var score := ScoreMove(e, legalMoves[i].move, level);
      assert score == vs[i];
      BestStep(legalMoves, vs, i);
      if Lt(bestScore, score) {
        bestScore := score;
        bestMoves := [legalMoves[i]];
      } else if score == bestScore {
        bestMoves := bestMoves + [legalMoves[i]];
      }
    }
    assert vs[..|legalMoves|] == vs && legalMoves[..|legalMoves|] == legalMoves;
  }

  /** One candidate's score in playAIMove: the move made on a clone, then searched one ply shallower than the level's depth. */
  method ScoreMove(e: Engine, move: Move, level: Level) returns (score: Value)
    requires e.Valid() && level != Easy && InBounds(move.from)
    ensures score == RootScore(e.Snapshot(), level, move)
  {
    var aiColor := e.GetCurrentTurn();
    var depth := if level == Medium then 1 else 2;
    if level == Medium {
      score := MinimaxChild(e, move, depth - 1, false, aiColor);
    } else {
      score := AlphaBetaChild(e, move, depth - 1, NegInf, PosInf, false, aiColor);
    }
  }

  /** The opening-book step of playAIMove: the book move for this turn, kept when it is a legal target of its square. */
  method TryBook(e: Engine, level: Level, d: Draws) returns (book: Option<Move>)
    requires e.Valid() && ValidDraws(d)
    ensures book == BookPick(e.Snapshot(), level, d)
  {
    var aiColor := e.GetCurrentTurn();
    var history := e.GetMoveHistory();
    var turnNumber := |history|;
    if level != Easy && turnNumber < 4 {
      var possibleOpenings := Openings(aiColor);
      var opening := possibleOpenings[Pick(d.opening, |possibleOpenings|)];
      if turnNumber % 2 == 0 {
        var move := opening[turnNumber / 2];
        var targets := e.GetLegalMoves(move.from);
        if move.to in targets {
          return Some(move);
        }
      }
    }
    return None;
  }

  /** Playing the book move: makeMove on the engine, reported as a capture when the board copy has a piece on the target. */
  method PlayBookMove(e: Engine, board: array2<Square>, move: Move) returns (result: Option<AIMove>)
    requires e.Valid() && board != e.board && board.Length0 == 8 && board.Length1 == 8 && Contents(board) == e.Rows
    requires InBounds(move.from) && move.to in LegalMoves(e.Snapshot(), move.from)
    modifies e, e.board
    ensures e.Valid() && e.board == old(e.board)
    ensures e.Snapshot() == Child(old(e.Snapshot()), move)
    ensures result == Some(AIMove(move.from, move.to, At(old(e.Snapshot()).board, move.to).Some?, None))
  {
    RulesFacts.LegalMovesSafe(e.Snapshot(), move.from, move.to);
    var moved := e.MakeMove(move.from, move.to);
    var target := board[move.to.row, move.to.col];
    return if moved then Some(AIMove(move.from, move.to, target.Some?, None)) else None;
  }

  /** Playing the mating candidate the scan found: makeMove on the engine, reported with checkmate true. */
  method PlayMate(e: Engine, c: Candidate) returns (result: Option<AIMove>)
    requires e.Valid() && InBounds(c.move.from) && c.move.to in LegalMoves(e.Snapshot(), c.move.from)
    modifies e, e.board
    ensures e.Valid() && e.board == old(e.board)
    ensures e.Snapshot() == Child(old(e.Snapshot()), c.move)
    ensures result == Some(AIMove(c.move.from, c.move.to, c.capture, Some(true)))
  {
    RulesFacts.LegalMovesSafe(e.Snapshot(), c.move.from, c.move.to);
    var moved := e.MakeMove(c.move.from, c.move.to);
    return if moved then Some(AIMove(c.move.from, c.move.to, c.capture, Some(true))) else None;
  }

  /** The pool of playAIMove (a random capture on easy, the best-scored moves otherwise) and the draw from it. */
  method SelectMove(e: Engine, legalMoves: seq<Candidate>, level: Level, d: Draws) returns (selected: Candidate)
    requires e.Valid() && ValidDraws(d) && legalMoves != []
    requires forall j :: 0 <= j < |legalMoves| ==> InBounds(legalMoves[j].move.from)
    ensures var pool := Pool(e.Snapshot(), level, d, legalMoves);
      selected == pool[Pick(d.best, |pool|)]
  {
    ghost var pool := Pool(e.Snapshot(), level, d, legalMoves);
    var bestMoves: seq<Candidate>;
    if level == Easy {
      var captures := FilterCaptures(legalMoves);
      bestMoves := if |captures| > 0 then [captures[Pick(d.easy, |captures|)]] else [legalMoves[Pick(d.easy, |legalMoves|)]];
    } else {
      bestMoves := BestMoves(e, legalMoves, level);
    }
    assert bestMoves == pool;
    selected := bestMoves[Pick(d.best, |bestMoves|)];
  }

  /** Playing the selected move: makeMove on the engine, then whether the side now to move is mated. */
  method PlaySelected(e: Engine, c: Candidate) returns (result: Option<AIMove>)
    requires e.Valid() && InBounds(c.move.from) && c.move.to in LegalMoves(e.Snapshot(), c.move.from)
    modifies e, e.board
    ensures e.Valid() && e.board == old(e.board)
    ensures e.Snapshot() == Child(old(e.Snapshot()), c.move)
    ensures result == Some(AIMove(c.move.from, c.move.to, c.capture, Some(Mated(Child(old(e.Snapshot()), c.move)))))
  {
    RulesFacts.LegalMovesSafe(e.Snapshot(), c.move.from, c.move.to);
    var moved := e.MakeMove(c.move.from, c.move.to);
    var opponent := e.GetCurrentTurn();
    var any := e.HasAnyLegalMove(opponent);
    var check := e.IsInCheck(opponent);
    var isMate := !any && check;
    return if moved then Some(AIMove(c.move.from, c.move.to, c.capture, Some(isMate))) else None;
  }

  /**
   * playAIMove(engine, level) with the draws of Math.random given: it reports the move Decide
   * chooses and has applied it to the engine; when there is no move the engine is untouched.
   */
  method PlayAIMove(e: Engine, level: Level, d: Draws) returns (result: Option<AIMove>)
    requires e.Valid() && ValidDraws(d)
    modifies e, e.board
    ensures e.Valid() && e.board == old(e.board)
    ensures result == Decide(old(e.Snapshot()), level, d)
    ensures result.None? ==> e.Snapshot() == old(e.Snapshot())
    ensures result.Some? ==> e.Snapshot() == Child(old(e.Snapshot()), Played(result.value))
  {
    ghost var s := e.Snapshot();
    var board := e.GetBoard();
    var legalMoves := CollectCandidates(e, board);
    forall j | 0 <= j < |legalMoves|
      ensures InBounds(legalMoves[j].move.from)
    {
      CandidateIsLegal(s, j);
    }
    if |legalMoves| == 0 {
      return None;
    }
    var book := TryBook(e, level, d);
    if book.Some? {
      result := PlayBookMove(e, board, book.value);
      assert result == Decide(s, level, d);
      return;
    }
    var mate := FindMatingMove(e, legalMoves);
    if mate.Some? {
      CandidateIsLegal(s, mate.value);
      result := PlayMate(e, legalMoves[mate.value]);
      assert result == Decide(s, level, d) by {
        assert Decide(s, level, d) == Some(SearchChoice(s, level, d, legalMoves));
      }
      return;
    }
    var selected := SelectMove(e, legalMoves, level, d);
    assert selected == Chosen(s, level, d, legalMoves);
    assert InBounds(selected.move.from) && selected.move.to in LegalMoves(s, selected.move.from) by {
      ChosenIsCandidate(s, level, d, legalMoves);
      var k :| 0 <= k < |legalMoves| && legalMoves[k] == selected;
      CandidateIsLegal(s, k);
    }
    result := PlaySelected(e, selected);
    assert result == Decide(s, level, d) by {
      assert Decide(s, level, d) == Some(SearchChoice(s, level, d, legalMoves));
    }
  }
}
