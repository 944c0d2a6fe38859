# Chess engine and computer opponent, modelled in Dafny

This project models the logic core of a browser chess game:

- the rules engine, `class Engine` in `src/logic/engine.ts`. It covers move generation, the king-safety filter, castling, en passant, promotion, `makeMove`, `clone`, `isInCheck` and `hasAnyLegalMove`;
- the computer opponent in `src/logic/ai.ts`. It covers the opening book, `evaluateBoard`, `getAllLegalMoves`, `minimax`, `alphabeta` and `playAIMove`;
- the starting board in `src/logic/initialPosition.ts`.

The rules are stated twice, and the two are proved equal:

1. **As values.**
   - `Pieces` holds the colours, kinds, squares and the 8x8 board.
   - `MoveGen` holds the raw and candidate moves, attacks and the king search.
   - `GameRules` holds the engine state as a `State` value, with `Apply` (applyMove), `LegalMoves` (getLegalMoves) and `Play` (makeMove).
   - `RulesFacts` holds what those functions guarantee.
2. **Imperatively.** `ChessEngine.Engine` is a class over an `array2` board with the source's fields. Every method of the class is proved against the value-level rules through `Snapshot()`.

The AI side follows the same split:

- `GameTree` defines minimax and fail-soft alpha-beta over any game, and proves that alpha-beta with the full window equals minimax.
- `Search` instantiates the game with chess. It also holds `getAllLegalMoves` (`AllLegalMoves`) and `evaluateBoard` (`Evaluate`).
- `AI` holds:
  - `Decide`, the move playAIMove makes, as a function of the state, the level and the draws of `Math.random`;
  - the methods over an `Engine` that carry out that decision, each proved against its function.
- `InitialPosition` holds the starting board, the engine constructed from it, and what holds in every game played from it.

Points where the model follows the code as written:

- **Castling is impossible from the start.** The pieces of `initialPosition.ts` have no `id`, although `engine.ts:9` documents `id` as a unique identifier. Every initial piece therefore shares one `hasMoved` key (`PieceId.NoId`). The first move of a game marks that key, and from then on every original king and rook reads as moved. Before that first move the squares between king and rook are occupied. So in a game from the initial position castling is never a legal move. `InitialPosition.CastlingNever` and `InitialPosition.NoTwoColumnKingMove` prove this. Castling remains modelled and proved for states that do allow it (`RulesFacts.CastlingConditions`).
- **The opening book does not check the colour.** The book move's legality is checked with `getLegalMoves(move.from)` alone, without asking whose piece stands there.
- **Odd move counts skip the book.** `opening[turnNumber / 2]` is undefined for an odd move count, so the book is then skipped.
- **Scores are integers in tenths of a pawn.** The source's weights map as follows:
  - mobility 0.1 becomes 1;
  - the corner term's 0.5 becomes 5;
  - material is multiplied by 10;
  - mate 10000 becomes 100000.

  Two jitter-free scores that differ by 0.1 or more in exact arithmetic keep their order under the source's double arithmetic. Scores that are exactly equal in tenths can come out unequal in doubles through rounding, for example 1 + 0.1·(−7) against 0.1·3. The model keeps such exact ties, and treats the choice among them as free, as it does for the jitter (see "## Left out").

## Model

| member | source | states |
|---|---|---|
| Pieces.Opponent | src/logic/engine.ts:66 | the enemy colour differs from the given colour |
| Pieces.Set | src/logic/engine.ts:129-130 | writing a square changes exactly that square; the board stays 8x8 |
| Pieces.ScanWhole | src/logic/engine.ts:356-367 | a row-major scan of the board that stops at the first hit succeeds exactly when some square qualifies |
| MoveGen.Steps | src/logic/engine.ts:157-164 | the `add` helper keeps only on-board targets, and for legal moves none holding a piece of the mover's colour |
| MoveGen.Ray | src/logic/engine.ts:205-218 | a sliding ray only visits on-board squares, and for legal moves never a square of the mover's colour |
| MoveGen.Rays | src/logic/engine.ts:196-218 | the rays of a bishop, rook or queen stay on the board and off own pieces |
| MoveGen.PawnPushes | src/logic/engine.ts:166-177 | a push lands on an empty square of the same column, one row forward, or two rows forward from the start row with the square between empty |
| MoveGen.PawnCaptures | src/logic/engine.ts:179-189 | a diagonal pawn target is one row forward and one column aside, and holds an enemy or is the en passant target |
| MoveGen.RawMoves | src/logic/engine.ts:285-351 | getRawMoves yields on-board squares only |
| MoveGen.AttackScan | src/logic/engine.ts:354-368 | the loop of isAttacked answers whether some enemy piece's raw attack reaches the square |
| MoveGen.KingFromFirst | src/logic/engine.ts:52-61 | the row-major king scan from (r, c) returns the first square at or after (r, c) holding the king of that colour, or none exactly when no such square holds one |
| MoveGen.FindKing | src/logic/engine.ts:50-63 | the king search of isInCheck returns a square holding the king of that colour |
| MoveGen.FindKingFirst | src/logic/engine.ts:50-63 | the king isInCheck looks at is the first of that colour in row-major order, and there is none exactly when no square of the board holds such a king |
| GameRules.Castling | src/logic/engine.ts:225-261 | castling only ever adds the king's targets on columns 6 and 2 of its row |
| GameRules.Candidates | src/logic/engine.ts:151-262 | the unfiltered moves of getLegalMoves are on the board |
| GameRules.Apply | src/logic/engine.ts:105-149 | applyMove keeps the state well formed (8x8 board, en passant target on a skippable square) |
| GameRules.SafeTargets | src/logic/engine.ts:264-268 | the king-safety filter only keeps candidates |
| GameRules.LegalMoves | src/logic/engine.ts:151-153 | legal targets are on the board; an empty or off-board square has none |
| GameRules.MovableScan | src/logic/engine.ts:271-283 | the loop of hasAnyLegalMove answers whether some piece of the colour has a legal move |
| GameRules.Play | src/logic/engine.ts:93-103 | makeMove succeeds exactly when the source square is on the board, occupied, and the target is among its legal moves; a rejected move leaves the whole state unchanged |
| GameRules.PlayAll | src/logic/engine.ts:93-103 | any sequence of makeMove calls keeps the state well formed |
| RulesFacts.StepsTargets | src/logic/engine.ts:157-164 | a knight or king step is a target exactly when it is one of the offsets, on the board, and (for legal moves) not on an own piece |
| RulesFacts.RayPositions | src/logic/engine.ts:205-217 | the i-th square of a ray is the start square plus i steps along the direction |
| RulesFacts.RayStops | src/logic/engine.ts:205-217 | every ray square but the last is empty; the last is taken only if it is an enemy (or for attacks); an empty ray end is followed by the board edge or an own piece |
| RulesFacts.CandidatesNotOwn | src/logic/engine.ts:151-262 | no candidate lands on an own piece, except a pawn's move to the en passant target |
| RulesFacts.SafeTargetsIff | src/logic/engine.ts:264-268 | a target passes the filter exactly when it is a candidate whose simulated move leaves the mover's king out of check |
| RulesFacts.LegalMovesSafe | src/logic/engine.ts:151-269 | a legal move is exactly an on-board, occupied source, a candidate target, and a result without the mover in check |
| RulesFacts.LegalTargetNotOwn | src/logic/engine.ts:151-269 | while the en passant square is empty, no legal move lands on a piece of the mover's colour |
| RulesFacts.CastlingConditions | src/logic/engine.ts:225-261 | a legal two-column king move requires an unmoved king not in check, and the short or long castling conditions on its row |
| RulesFacts.DoublePush | src/logic/engine.ts:166-177 | a two-row pawn candidate starts on the start row, stays in its column, and passes an empty square |
| RulesFacts.ApplyBasics | src/logic/engine.ts:105-131 | applyMove flips the turn, appends to the history, marks the mover's id and no other, empties the source, and puts the piece (or a promoted queen) on the target |
| RulesFacts.ApplyFrame | src/logic/engine.ts:105-149 | every square other than source, target, en passant victim and castling rook squares is unchanged |
| RulesFacts.ApplyEnPassant | src/logic/engine.ts:112-137 | the en passant target is set exactly after a two-row pawn move, to the square between; a capture on the target removes the pawn passed |
| RulesFacts.ApplyCastlingRook | src/logic/engine.ts:117-127 | a castling king move brings the rook from column 7 to 5 or from 0 to 3 |
| RulesFacts.ApplyKeepsIds | src/logic/engine.ts:139-148 | a promoted queen gets the counter's id, which no piece on the board had; the counter advances exactly on promotion |
| RulesFacts.PlayOutcome | src/logic/engine.ts:93-103 | makeMove either rejects and changes nothing or performs applyMove |
| RulesFacts.LegalMovesIgnoreTurn | src/logic/engine.ts:151-269 | getLegalMoves does not depend on whose turn it is |
| RulesFacts.PlayIgnoresTurn | src/logic/engine.ts:93-103 | makeMove accepts the same moves, with the same resulting board, whoever is to move |
| RulesFacts.PlayKeepsEpEmpty | src/logic/engine.ts:133-137 | makeMove preserves "the en passant target square is empty" |
| RulesFacts.ApplyKeepsEpEmpty | src/logic/engine.ts:133-137 | applying a candidate leaves the new en passant target square empty |
| RulesFacts.PlayAllInvariants | src/logic/engine.ts:93-103 | every sequence of makeMove calls keeps the empty en passant square and the issued-id invariant |
| ChessEngine.DeepCloneBoard | src/logic/engine.ts:25-27 | the copy is a fresh array with the same squares |
| ChessEngine.Engine.constructor | src/logic/engine.ts:36-39 | the engine holds a copy of the board, white to move, nothing moved, no en passant target, empty history |
| ChessEngine.Engine.Clone | src/logic/engine.ts:41-48 | the clone is a fresh engine with a fresh board and the same state |
| ChessEngine.Engine.GetBoard | src/logic/engine.ts:81-83 | a fresh copy of the board |
| ChessEngine.Engine.GetCurrentTurn | src/logic/engine.ts:85-87 | the side to move |
| ChessEngine.Engine.GetMoveHistory | src/logic/engine.ts:89-91 | the moves made so far |
| ChessEngine.Engine.GetUniqueId | src/logic/engine.ts:18-23 | a new id from the counter, which advances |
| ChessEngine.Engine.AddSteps | src/logic/engine.ts:157-164 | appends exactly the knight/king steps of the value model |
| ChessEngine.Engine.WalkRay | src/logic/engine.ts:205-218 | the while loop appends exactly the ray of the value model |
| ChessEngine.Engine.WalkRays | src/logic/engine.ts:196-218 | the loop over directions appends exactly the rays |
| ChessEngine.Engine.PawnPushMoves | src/logic/engine.ts:166-177 | the pawn pushes of the value model |
| ChessEngine.Engine.GetRawMoves | src/logic/engine.ts:285-351 | getRawMoves equals RawMoves of the board |
| ChessEngine.Engine.IsAttacked | src/logic/engine.ts:354-368 | isAttacked equals Attacked |
| ChessEngine.Engine.IsInCheck | src/logic/engine.ts:50-79 | isInCheck equals InCheck (false when the king is missing) |
| ChessEngine.Engine.ShortCastleOk | src/logic/engine.ts:230-244 | the short castling test equals CastleShort |
| ChessEngine.Engine.LongCastleOk | src/logic/engine.ts:246-260 | the long castling test equals CastleLong |
| ChessEngine.Engine.CastlingMoves | src/logic/engine.ts:225-261 | appends exactly the castling targets |
| ChessEngine.Engine.PawnCaptureAt | src/logic/engine.ts:180-188 | one diagonal of the pawn capture loop |
| ChessEngine.Engine.PawnCaptureMoves | src/logic/engine.ts:179-189 | both diagonals, in source order |
| ChessEngine.Engine.CandidateMoves | src/logic/engine.ts:151-262 | the unfiltered move list equals Candidates |
| ChessEngine.Engine.SafeMoves | src/logic/engine.ts:264-268 | the clone-apply-check filter equals SafeTargets |
| ChessEngine.Engine.GetLegalMoves | src/logic/engine.ts:151-269 | getLegalMoves equals LegalMoves |
| ChessEngine.Engine.HasAnyLegalMove | src/logic/engine.ts:271-283 | hasAnyLegalMove equals HasLegalMove |
| ChessEngine.Engine.RemovePassedPawn | src/logic/engine.ts:112-115 | the en passant removal step of applyMove |
| ChessEngine.Engine.MoveCastlingRook | src/logic/engine.ts:117-127 | the rook relocation step of applyMove |
| ChessEngine.Engine.MovePieces | src/logic/engine.ts:129-130 | the board after the removal, rook and piece moves |
| ChessEngine.Engine.Promote | src/logic/engine.ts:139-148 | a pawn on its last row becomes a queen with a fresh id; otherwise nothing changes |
| ChessEngine.Engine.ApplyMove | src/logic/engine.ts:105-149 | the new state is Apply of the old one |
| ChessEngine.Engine.MakeMove | src/logic/engine.ts:93-103 | the result and the new state are Play of the old state |
| InitialPosition.InitialShape | src/logic/initialPosition.ts:4-53 | the initial board has 8 rows of 8 squares |
| InitialPosition.InitialBackRanks | src/logic/initialPosition.ts:5-52 | rows 0 and 7 hold rook, knight, bishop, queen, king, bishop, knight, rook, black and white |
| InitialPosition.InitialPawnsAndEmptyRows | src/logic/initialPosition.ts:15-41 | rows 1 and 6 hold pawns; rows 2 to 5 are empty |
| InitialPosition.InitialNoIds | src/logic/initialPosition.ts:4-53 | no initial piece carries an id |
| InitialPosition.InitialKings | src/logic/initialPosition.ts:10-48 | each colour has exactly one king, on column 4 of its back rank |
| InitialPosition.InitialFindKing | src/logic/engine.ts:50-63 | isInCheck's king search finds each king on its home square |
| InitialPosition.Start | src/logic/engine.ts:36-39 | the starting engine state is well formed |
| InitialPosition.NewGame | src/logic/engine.ts:36-39 | new Engine(initialPosition) holds the starting state |
| InitialPosition.GameInvariant | src/logic/engine.ts:105-108 | every state reached from the start keeps an empty en passant square and the issued ids, and is either the initial board or has the shared absent id marked as moved |
| InitialPosition.NoCastlingShape | src/logic/engine.ts:230-255 | on the initial board neither castling condition holds on any row |
| InitialPosition.CastlingNever | src/logic/engine.ts:227 | in every game from the initial position castling adds no king target |
| InitialPosition.NoTwoColumnKingMove | src/logic/engine.ts:225-261 | in every game from the initial position no king has a legal two-column move |
| GameTree.Max | src/logic/ai.ts:106 | Math.max: an upper bound of both arguments and one of them |
| GameTree.Min | src/logic/ai.ts:115 | Math.min: a lower bound of both arguments and one of them |
| GameTree.MinimaxLoopBest | src/logic/ai.ts:100-118 | the move loop's result bounds every child value it visits, and is the start value or one of them |
| GameTree.MinimaxBest | src/logic/ai.ts:95-119 | minimax is the best child value for the side to move, and is attained by some child |
| GameTree.MinimaxBestMove | src/logic/ai.ts:95-119 | the same, stated over the moves and their child positions |
| GameTree.MinimaxFinite | src/logic/ai.ts:95-119 | minimax is never infinite |
| GameTree.AlphaBetaFailSoft | src/logic/ai.ts:121-147 | alphabeta returns the minimax value inside the window, an upper bound of it at or below alpha, a lower bound at or above beta |
| GameTree.MaxLoopFailSoft | src/logic/ai.ts:126-135 | the maximizing loop with its cut-off is fail-soft with respect to the minimax loop |
| GameTree.MinLoopFailSoft | src/logic/ai.ts:136-146 | the minimizing loop with its cut-off is fail-soft with respect to the minimax loop |
| GameTree.AlphaBetaIsMinimax | src/logic/ai.ts:121-147 | alphabeta with the window (-Infinity, Infinity) equals minimax |
| Search.Targets | src/logic/ai.ts:86-88 | one move per target, all from the given square |
| Search.TargetsIff | src/logic/ai.ts:86-88 | a move is listed exactly when it starts at the square and its target is legal |
| Search.MovesFrom | src/logic/ai.ts:81-91 | the listed moves are on the board |
| Search.AllLegalMoves | src/logic/ai.ts:77-93 | getAllLegalMoves lists on-board moves |
| Search.MovesFromIff | src/logic/ai.ts:81-91 | from square (r, c) on, a move is listed exactly when its piece has the colour and its target is legal |
| Search.AllLegalMovesIff | src/logic/ai.ts:77-93 | a move is listed exactly when it moves a piece of the side to move to a legal target |
| Search.NoMovesIff | src/logic/ai.ts:96 | getAllLegalMoves is empty exactly when hasAnyLegalMove is false for the side to move |
| Search.MovesFromIgnoreTurn | src/logic/ai.ts:58-63 | flipping currentTurn does not change the moves listed for a colour |
| Search.MaterialZeroSum | src/logic/ai.ts:45-57 | the material sums for the two colours are opposite; the piece counts agree |
| Search.LastEnemyKing | src/logic/ai.ts:52-54 | enemyKingPos is the last enemy king in scan order, or absent when there is none |
| Search.CornerDistanceNearest | src/logic/ai.ts:66-70 | the minimum over the four corners is the nearest distance in each coordinate, at most 6 |
| Search.CornerBonusRange | src/logic/ai.ts:66-72 | the endgame corner term is between 4 and 7 pawns, and larger the nearer the king is to a corner |
| Search.MobilityFlip | src/logic/ai.ts:58-65 | the mobility term changes sign with the side to move |
| Search.EvaluateTerminal | src/logic/ai.ts:29-38 | with no legal move, the score is 0 on stalemate and 10000 against the mated side; the two AI colours see opposite scores |
| Search.EvaluateZeroSum | src/logic/ai.ts:39-72 | apart from the corner term, the two AI colours see opposite material and the same mobility |
| Search.Child | src/logic/ai.ts:103-104 | the position after clone().makeMove is well formed |
| Search.SearchLeaf | src/logic/ai.ts:96-98 | both searches return evaluateBoard at depth 0 or when the side to move has no move |
| Search.MinimaxOverLegalMoves | src/logic/ai.ts:95-119 | minimax of a chess position is the best, for the side to move, of the minimax values of its legal moves, and one of them |
| AI.Pick | src/logic/ai.ts:172 | Math.floor(Math.random() * n) is an index below n |
| AI.PickReaches | src/logic/ai.ts:223 | every index is selected by some draw |
| AI.Openings | src/logic/ai.ts:6-27 | two openings of two moves per colour |
| AI.BookMove | src/logic/ai.ts:169-173 | a book move is only proposed below the easy level after 0 or 2 moves, and comes from the book of the side to move |
| AI.BookPick | src/logic/ai.ts:174 | a book move is played only when it is a legal move |
| AI.LegalCandidates | src/logic/ai.ts:152-165 | one candidate per legal move |
| AI.CandidateIsLegal | src/logic/ai.ts:154-165 | each candidate is a legal move of a piece of the side to move, a capture exactly when its target is occupied |
| AI.FirstWhere | src/logic/ai.ts:185-198 | the scan returns the first candidate passing the test, or none when none does |
| AI.CapturesIff | src/logic/ai.ts:204 | the filter keeps exactly the capturing candidates |
| AI.SearchDepth | src/logic/ai.ts:207 | depth 1 on medium, 2 on hard, at least 1 |
| AI.RootScoreMeaning | src/logic/ai.ts:207-213 | medium scores a move by evaluateBoard after it; hard by the minimax value one ply deeper; both finite |
| AI.MaxOfIsMax | src/logic/ai.ts:214-216 | bestScore ends as the maximum of the scores, attained by one of them |
| AI.KeepIff | src/logic/ai.ts:214-219 | a candidate is kept exactly when its score equals the given one |
| AI.KeepMaxIff | src/logic/ai.ts:206-221 | bestMoves holds exactly the candidates of maximal score, and is non-empty when there are candidates |
| AI.BestIff | src/logic/ai.ts:206-221 | the same for the root scores of medium and hard |
| AI.BestStep | src/logic/ai.ts:214-219 | one step of the loop: a higher score restarts the list, an equal score appends, a lower one keeps it |
| AI.Pool | src/logic/ai.ts:200-221 | the list the final draw chooses from is never empty |
| AI.SearchChoice | src/logic/ai.ts:223-233 | a searched move always reports a checkmate flag |
| AI.PoolFromCandidates | src/logic/ai.ts:200-221 | the pool holds candidates only |
| AI.DecideNoneIff | src/logic/ai.ts:167 | playAIMove returns null exactly when the side to move has no legal move |
| AI.SearchChoiceNoMate | src/logic/ai.ts:223-233 | without a mate in one, the flag says whether the position after the chosen move is mate |
| AI.ChosenIsCandidate | src/logic/ai.ts:223 | the selected move is one of the candidates |
| AI.DecideLegal | src/logic/ai.ts:149-234 | the AI's move is legal, its capture flag is true exactly when the target was occupied, and a move without a checkmate flag is the book move |
| AI.DecideMateFirst | src/logic/ai.ts:185-198 | when no book move applies and some candidate mates, the first mating candidate is played with checkmate true |
| AI.SearchChoiceMates | src/logic/ai.ts:185-198 | the search picks the first mating candidate when there is one |
| AI.EasyChoosesCapture | src/logic/ai.ts:203-205 | on easy, when some candidate captures, the chosen move captures |
| AI.EasyPrefersCapture | src/logic/ai.ts:203-205 | on easy, without mate in one, the AI captures whenever it can |
| AI.SearchPlaysBest | src/logic/ai.ts:206-223 | on medium and hard, without book move or mate in one, the move played has a maximal root score |
| AI.SearchReachesEveryBest | src/logic/ai.ts:223 | every best-scoring candidate is played for some draw |
| AI.PushTargets | src/logic/ai.ts:86-88 | appends one move per legal target |
| AI.ScanSquare | src/logic/ai.ts:83-89 | one square of the getAllLegalMoves loop appends that square's moves |
| AI.GetAllLegalMoves | src/logic/ai.ts:77-93 | the method returns AllLegalMoves of the engine state |
| AI.CountMaterial | src/logic/ai.ts:45-57 | the board loop of evaluateBoard computes the material, piece count and enemy king of the whole board |
| AI.CountRow | src/logic/ai.ts:46-56 | one row of that loop |
| AI.MobilityProbe | src/logic/ai.ts:58-65 | counts both sides' moves by flipping and restoring currentTurn, leaving the engine unchanged |
| AI.EvaluateBoard | src/logic/ai.ts:29-75 | evaluateBoard equals Evaluate of the engine state and leaves the engine unchanged |
| AI.Heuristic | src/logic/ai.ts:39-72 | away from mate and stalemate: material plus mobility plus the corner term |
| AI.Material | src/logic/ai.ts:39-57 | the material tally of the engine's board |
| AI.MinimaxSearch | src/logic/ai.ts:95-119 | minimax equals the Minimax of the chess game and leaves the engine unchanged |
| AI.MinimaxMoves | src/logic/ai.ts:99-118 | the move loop of minimax yields the minimax value |
| AI.MinimaxEvalLoop | src/logic/ai.ts:100-118 | the for loop over the moves computes the running max or min of the children |
| AI.MinimaxChild | src/logic/ai.ts:103-105 | clone, makeMove, recurse: the minimax value of the child |
| AI.AlphaBetaSearch | src/logic/ai.ts:121-147 | alphabeta equals the AlphaBeta of the chess game and leaves the engine unchanged |
| AI.AlphaBetaMoves | src/logic/ai.ts:125-146 | the move loops of alphabeta yield its value |
| AI.AlphaBetaMax | src/logic/ai.ts:126-135 | the maximizing loop with its cut-off |
| AI.AlphaBetaMin | src/logic/ai.ts:136-146 | the minimizing loop with its cut-off |
| AI.AlphaBetaChild | src/logic/ai.ts:129-131 | clone, makeMove, recurse: the alphabeta value of the child |
| AI.CollectCandidates | src/logic/ai.ts:152-165 | playAIMove's legalMoves equals LegalCandidates |
| AI.TagMoves | src/logic/ai.ts:160-161 | tags each move with whether its target is occupied |
| AI.FindMatingMove | src/logic/ai.ts:185-198 | the mate-in-one scan returns the first mating candidate |
| AI.MatesOnClone | src/logic/ai.ts:186-189 | the clone test is Mates |
| AI.FilterCaptures | src/logic/ai.ts:204 | the capture filter equals Captures |
| AI.BestMoves | src/logic/ai.ts:206-221 | the scoring loop returns Best |
| AI.ScoreMove | src/logic/ai.ts:209-213 | one candidate's score, by minimax or alphabeta, is its root score |
| AI.TryBook | src/logic/ai.ts:169-174 | the book lookup returns BookPick |
| AI.PlayBookMove | src/logic/ai.ts:175-181 | plays the book move and reports it with the capture flag read from the board before the move |
| AI.PlayMate | src/logic/ai.ts:190-196 | plays the mating move and reports checkmate true |
| AI.SelectMove | src/logic/ai.ts:200-223 | the final draw picks from the pool |
| AI.PlaySelected | src/logic/ai.ts:224-233 | plays the selected move and reports whether the opponent is now mated |
| AI.PlayAIMove | src/logic/ai.ts:149-234 | playAIMove returns Decide of the engine state; null leaves the engine unchanged, otherwise the engine holds the position after the reported move |

## Left out

- Presentation strings are not modelled: `image`, `dragImage` and the queen image names given at promotion.
- `crypto.randomUUID` is not modelled. Promotion ids come from the counter fallback of `getUniqueId`. That counter is kept as an engine field (`nextId`, starting at 1000) instead of a module-level variable, so a clone advances its own copy.
- `Math.random` is replaced by inputs. The draws for the opening, the easy choice and the final choice are parameters (`Draws`, reals in [0, 1)). The evaluation jitter `Math.random() * 0.01` is left out. Exact ties are therefore kept, where the jittered source almost never sees one.
- Floating point is not modelled: scores are exact integers in tenths of a pawn. Rounding in the source's doubles can break an exact tie one way or the other; the model keeps the tie.
- ChessEngine.Engine.GetLegalMoves: requires the source row index to be within 0..7, where the source throws a TypeError; an out-of-range column is handled, as in the source.
- ChessEngine.Engine.MakeMove: requires the source row index to be within 0..7, for the same reason.
- AI.PlayAIMove: the `moved ? ... : null` branches of the source cannot yield null, because every move played has been checked legal first. The model proves the move is played and does not model the unreachable null.
- `evaluateBoard` without an `engine` argument is not modelled; every call in the source passes one.
- Boards of other sizes than 8x8 are not modelled.
- The network, the UI, timers and the `AIDifficulty` configuration file are not part of this model.
