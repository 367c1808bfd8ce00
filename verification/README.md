# Novachess, verified

A Dafny model of the parts of Novachess in which a fast or concurrent algorithm has a simple meaning it must
equal, with proofs that it does: the chess kernel, the evaluators that walk in step with it, the search, the
transposition table, the notations and the training data format, the self-play pipeline and the gate.

The model has three layers.

**The rules on values.** `Rules.dfy` says what a position is, what a move does and which moves are legal by make
and test (FIDE Laws of Chess, articles 3.2 to 3.9), and states one invariant, `Valid`, that everything else uses.
`Squares.dfy` and `Geometry.dfy` give the plane geometry; a bitboard is a set of squares. `MaskLegality`,
`LegalMoves`, `Generator` and `Preservation` relate pins, evasion masks and the castling and en passant tests to
make and test, and say in plain terms what each move does and what castling needs and costs. `DeadPosition`, `Mates`,
`Locked` and `Repetition` prove what articles 5.2.2, 9.2 and 9.3 need, and how far the tests for dead positions reach.

**The program's own form.** `PositionState.Position` is the mutable position with its three redundant views,
incremental key and undo history; `MoveGen`, `GameRules`, `FenLoops`, `SampleCodec` and `HandCrafted` are the loops
over it; `Incremental.IncrementalEvaluator` is the accumulator stack; `Search.State` is the recursive search;
`TranspositionTable.Table` the hash table; `CoordinatorState.Coordinator` the coordinator. Every method is proved
against the value layer. Where the word level matters it is modelled: `Words` and `Attacks` take the magic tables
down to 64-bit words, `Network` writes out 32- and 64-bit wrap-around and truncating division, `TranspositionTable`
and `Samples` pack bits and bytes.

**Protocols as steps.** `SelfPlay` (queue, workers, store, coordinator, with crashes, redelivery and restart), `Gate`
(workers, channels, cancellation) and the shared slot of `TranspositionTable` are state machines; their results hold
for every sequence of steps. `SelfPlay` uses the same ledger functions (`Ledger.dfy`) that the coordinator's methods
are proved against.

The largest results, each for all inputs, runs or schedules: the generator lists exactly the legal moves; make and
unmake keep views, key and invariant and nest to the identity; magic lookup is the ray walk; a position called dead
is dead, and material is called insufficient exactly when no mate can be set up from it; the windowed repetition
count is the whole game's; incremental evaluation is evaluation from scratch; the search gives everything back and
plays legal moves; texts and records give their positions back, and a right is held in a game exactly while its men
have not moved; announced data verifies for ever and is counted once; the gate's tally does not depend on its
schedule.

Where the code and its own description differ, the code is modelled: a passed-pawn mask without the right-hand file,
ageing of table entries that stops working at generation 64, older table entries that outlast current ones, a parser
that believes negative clocks and off-rank en passant targets. For each there are an example and the exact condition
under which the description holds.

Zobrist constants, piece-square numbers, network weights, evaluation weights and opening books are arbitrary
constants or parameters throughout.

`dafny verify dfyconfig.toml` checks everything.

## Model

| member | source | states |
|---|---|---|
| `MaskLegality.MasksAreMakeAndTest` | internal/chess/movegen.go:52-93 | For every man but the king, the check-evasion and pin masks admit a move if and only if playing it leaves no enemy man attacking the king. |
| `MaskLegality.NoSquareAnswersTwoChecks` | internal/chess/movegen.go:61-65 | No square blocks or captures two checkers at once, so returning early under double check loses nothing. |
| `LegalMoves.KingStepIsMakeAndTest` | internal/chess/movegen.go:145-158 | Testing the destination with the king lifted off the board is the same as playing the step and testing. |
| `LegalMoves.EpTestIsMakeAndTest` | internal/chess/movegen.go:338-362 | The simulated occupancy of an en passant capture decides exactly whether the king is safe after it, discovered rank attacks included, provided the kings are not adjacent. |
| `LegalMoves.EpNeverAnswersDoubleCheck` | internal/chess/movegen.go:307-311 | An en passant capture that leaves the king safe was answering at most one check. |
| `LegalMoves.CastlingTestIsMakeAndTest` | internal/chess/movegen.go:167-215 | After the path tests, the last test (the castling rook removed as a shield) holds exactly when the king is safe after castling, for every Chess960 arrangement. |
| `Generator.EmitsExactlyLegalMoves` | internal/chess/movegen.go:37-94 | In every valid position the moves admitted by the masks are exactly the legal ones; in captures-only mode exactly the forcing legal ones. |
| `MoveGen.BlockersForKing` | internal/chess/movegen.go:112-141 | The loop over snipers returns exactly the men that alone shield the king from a slider. |
| `MoveGen.GenKingMoves` | internal/chess/movegen.go:145-158 | Appends each safe king step once and nothing else. |
| `MoveGen.GenCastling` | internal/chess/movegen.go:167-232 | Appends each castling move whose right is held, path empty, king path unattacked and king unshielded at its destination, once. |
| `MoveGen.GenPieceMoves` | internal/chess/movegen.go:235-256 | Appends each knight, bishop, rook and queen move within targets and pin line, once. |
| `MoveGen.GenPawnMoves` | internal/chess/movegen.go:262-313 | Appends each push, double push, capture, promotion and en passant the masks allow, once. |
| `MoveGen.Generate` | internal/chess/movegen.go:37-94 | The list built from checkers, blockers and masks holds exactly the admitted moves without duplicates. |
| `MoveGen.GenerateLegalMoves` | internal/chess/movegen.go:37-94 | In every consistent position: no duplicates, and a move is in the list if and only if it is pseudo-legal and leaves the own king unattacked, castling also crossing no attacked square. |
| `MoveGen.GenerateCaptures` | internal/chess/movegen.go:35-94 | Not in check: exactly the legal captures, en passant captures and promotions. In check: exactly all legal moves. |
| `Preservation.LegalMoveKeepsValid` | internal/chess/position.go:201-303 | Every legal move leads from a valid position to a valid one: one king each, opponent not left in check, no pawn on an edge rank, rights at home, target usable, clock not negative. |
| `Preservation.PlayKeepsValid` | internal/chess/position.go:279-296 | Along every line of legal play the invariant holds, a held right has king and rook on their recorded origins, and rights only shrink. |
| `Preservation.MovePlaces` | internal/chess/position.go:201-303 | Every legal move but castling carries one man, which stays what it is unless a pawn reaches the far rank, takes what stands on its target or the pawn passed beside it, and changes nothing else; the clock restarts exactly with a pawn move or a capture, and the number counts Black's moves. |
| `Preservation.CastlingPlaces` | internal/chess/castling.go:72-98 | Legal castling leaves king and rook on g and f or on c and d of the home rank and every other man in place; a king from the e-file has gone two squares towards its rook, which stands on the square crossed (FIDE 3.8.2). |
| `Preservation.CastlingLegalExactly` | internal/chess/movegen.go:167-232 | A held right may be used if and only if no other man stands on the way of king or rook, no square the king stands on, crosses or reaches is attacked, and the king is safe afterwards. |
| `Preservation.PawnMovesInWords` | internal/chess/movegen.go:262-300 | A pawn reaches exactly an enemy man diagonally ahead, the empty square ahead, or from its second rank the next square if both are empty. |
| `Preservation.ForcingExactly` | internal/chess/movegen.go:35-50 | A legal move belongs to the captures-only mode if and only if it promotes a pawn or an enemy man is gone afterwards. |
| `Preservation.RightsGoWithTheirMen` | internal/chess/position.go:288-296 | A right is lost when its king or its recorded rook moves or is taken; a move that leaves the kings and rooks at home on its side alone keeps it. |
| `Preservation.RightsAlongPlay` | internal/chess/position.go:288-296 | After any line of legal moves a right is held if and only if it was and no move began or ended on a square that forfeits it; that only men at home forfeit rights is kept along the line. |
| `Preservation.EmittedIffAvailable` | internal/chess/movegen.go:61-65 | Asked about a square passed by a pawn, the generator emits an en passant capture if and only if a legal one exists; returning early under double check loses none. |
| `Preservation.TargetIffEmitted` | internal/chess/movegen.go:298-312 | A valid position records an en passant target if and only if the generator emits an en passant capture. |
| `Preservation.TargetAfterMove` | internal/chess/position.go:267-286 | A move records nothing unless a pawn went two squares, and then the square passed exactly when the generator, asked about it in the position reached, would emit a capture. |
| `Zobrist.ComputeKey` | internal/chess/zobrist.go:43-60 | The loop over squares yields the exclusive or that defines the key. |
| `Zobrist.OneSquareChanged` | internal/chess/position.go:136-162 | Two boards that differ in one square have keys that differ by what left it and what arrived. |
| `PositionState.Position.PutPiece` | internal/chess/position.go:136-141 | Keeps the three board views in agreement and the key equal to the computed one. |
| `PositionState.Position.RemovePiece` | internal/chess/position.go:144-150 | Likewise for lifting a man. |
| `PositionState.Position.MovePiece` | internal/chess/position.go:154-162 | Likewise for moving a man to an empty square. |
| `PositionState.Position.AttackersToExactly` | internal/chess/position.go:169-181 | The attack-table formula yields exactly the men of a colour that attack a square under any occupancy. |
| `PositionState.Position.EnPassantLegalExactly` | internal/chess/movegen.go:338-362 | The four bitboard tests are exactly the simulated-occupancy condition. |
| `PositionState.Position.EpCaptureAvailable` | internal/chess/position.go:435-464 | True exactly when some pawn may legally capture en passant on the square. |
| `PositionState.Position.RecordDoublePush` | internal/chess/position.go:279-296 | Records the target exactly when the opponent can legally take, and keeps the key in step. |
| `PositionState.Position.MakeMove` | internal/chess/position.go:201-303 | For every legal move: the three views agree, the incremental key is the computed one, the new state is the one the rules prescribe, and one undo record is pushed. |
| `PositionState.Position.UnmakeMove` | internal/chess/position.go:308-359 | Restores every field of the position before the last move, key and history included. |
| `PositionState.Position.MakeNullMove` | internal/chess/position.go:371-397 | Passes the turn, forgets the target, keeps views, key and invariant. |
| `PositionState.Position.UnmakeNullMove` | internal/chess/position.go:400-419 | Restores every field of the position before the pass. |
| `Nesting.Run` | internal/chess/position.go:201-419 | Any well-bracketed nesting of real and null moves is the identity on position, key, history and accumulators, and every evaluation on the way equals the one computed from scratch, at any stack capacity. |
| `Repetition.WindowIsWholeGame` | internal/chess/rules.go:166-182 | Without null moves and key collisions the windowed scan equals the number of earlier positions of the whole game identical to the current one. |
| `Repetition.MovesUseReserves` | internal/chess/rules.go:166-182 | A potential that no legal move raises and every capture or pawn move strictly lowers: why nothing before the window can repeat. |
| `Repetition.SidesAlternate` | internal/chess/rules.go:166-182 | Only every second earlier position has the same side to move. |
| `GameRules.RepetitionCount` | internal/chess/rules.go:166-182 | The loop computes the scan, and hence the whole-game count. |
| `DeadPosition.InsufficientIsClosed` | internal/chess/rules.go:221-262 | Insufficient material is kept by every legal move. |
| `DeadPosition.InsufficientIsNotMate` | internal/chess/rules.go:221-262 | No valid position with insufficient material is checkmate: a checked king has a square of the other colour to go to. |
| `GameRules.IsInsufficientMaterial` | internal/chess/rules.go:221-262 | The bitboard tests answer exactly the condition on material. |
| `Mates.InsufficientSets` | internal/chess/rules.go:206-255 | The condition said of the men: besides the kings nothing, one knight or bishop, or bishops only, all on squares of one colour. |
| `Mates.InsufficientExactlyWithoutMate` | internal/chess/rules.go:206-255 | It holds for a set of men if and only if no valid checkmate at all can be set up from men of that set, each on either side as it is, bishops on their colour, pawns also promoted: for every other material such a mate is constructed. |
| `DeadPosition.WalkableIsLeast` | internal/chess/rules.go:391-412 | The squares a king can walk to are contained in every closed set that holds its square. |
| `GameRules.KingReachableSquares` | internal/chess/rules.go:397-412 | The flood fill terminates at exactly the squares the king can walk to. |
| `GameRules.ShiftNeverWraps` | internal/chess/bitboard.go:90-111 | Masking the outer file before shifting the word moves squares by exactly one diagonal step; none wraps around. |
| `GameRules.PawnsAreLocked` | internal/chess/rules.go:332-346 | True exactly when every pawn has a pawn ahead and nothing to capture. |
| `GameRules.KingIsConfined` | internal/chess/rules.go:349-378 | True exactly when the king can never reach an undefended enemy pawn. |
| `GameRules.IsBlockedDeadPosition` | internal/chess/rules.go:312-381 | Answers yes exactly when all its conditions hold. |
| `Locked.WalkableExactly` | internal/chess/rules.go:397-415 | The flood-filled squares are exactly those some walk of king steps off the walls leads to. |
| `Locked.LockedExactly` | internal/chess/rules.go:328-346 | A pawn counts as locked if and only if it has no move even with both kings lifted off the board. |
| `Locked.BlockedExactly` | internal/chess/rules.go:280-381 | The test says yes exactly when there are kings and pawns only, at least one pawn and no target, no pawn could move without the kings, no king stands in a pawn's attack, and no walk off pawns and their attacks leads a king beside an undefended enemy pawn. |
| `DeadPosition.BlockedIsDead` | internal/chess/rules.go:312-381 | From such a position no line of legal moves moves or takes a pawn, puts a king in check or mates. |
| `DeadPosition.DeadPositionsAreDead` | internal/chess/rules.go:417-419 | Where either dead-position test fires, no line of legal moves ends in checkmate. |
| `GameRules.Judge` | internal/chess/rules.go:90-117 | A win is announced exactly on checkmate, stalemate exactly on stalemate, a dead-position draw only if no mate is reachable, threefold only for a position that occurred twice before; where only the clock can decide, the game is drawn exactly from ply one hundred. |
| `Attacks.StepIsGeometric` | internal/chess/attacks.go:69-80 | The wrap test on indices is exact for every step of a king, pawn or knight. |
| `Attacks.InitKingAttacks` | internal/chess/attacks.go:89-103 | The table holds exactly the king steps. |
| `Attacks.InitKnightAttacks` | internal/chess/attacks.go:89-103 | The table holds exactly the knight steps. |
| `Attacks.SlidingAttacks` | internal/chess/attacks.go:109-125 | Walking the rays yields exactly the squares a rook or bishop sees through the occupancy. |
| `Attacks.EdgesAreIrrelevant` | internal/chess/attacks.go:128-146 | Blockers on the edges dropped from the mask never change what a slider sees. |
| `Words.SubIsMachineSubtraction` | internal/chess/attacks.go:148-161 | Bitwise subtraction with borrow is subtraction modulo two to the width. |
| `Words.MinusOneIsMachineDecrement` | internal/chess/bitboard.go:72-77 | The word the popping lemmas subtract from is the machine's b - 1, wrap-around included. |
| `Words.DecrementClearsLowest` | internal/chess/bitboard.go:72-77 | Subtracting one and masking keeps exactly the ones that have another one below them. |
| `Attacks.PopFirstIsRemoval` | internal/chess/bitboard.go:60-77 | Hence popping takes exactly the lowest square off the set the word stands for, and what is left is empty unless there were two. |
| `Words.StepCounts` | internal/chess/attacks.go:148-161 | One carry-rippler step increases by one the number spelled by the bits under the mask. |
| `Words.Subsets` | internal/chess/attacks.go:148-162 | The carry-rippler loop visits every subset of the mask exactly once. |
| `Words.MagicIndexInRange` | internal/chess/attacks.go:50-52 | Multiplying and shifting in 64 bits always falls inside the table. |
| `Attacks.TryMultiplier` | internal/chess/attacks.go:168-197 | An accepted multiplier leaves every subset's ray walk in its slot, stale slots of failed attempts being told apart by epoch. |
| `Attacks.AcceptedTableIsExact` | internal/chess/attacks.go:228-237 | Lookup in an accepted table equals the ray walk for all occupancies. |
| `Attacks.InitMagic` | internal/chess/attacks.go:128-199 | Once some candidate is accepted for a square, lookup equals the ray walk for every occupancy there is. |
| `Attacks.InitMagics` | internal/chess/attacks.go:128-199 | If a multiplier is accepted for every square, then for all squares and all occupancies lookup equals the ray walk. |
| `Attacks.TablesSuffice` | internal/chess/attacks.go:128-148 | A relevant mask has at most twelve squares, so the reused arrays of 4096 entries never run out. |
| `Attacks.InitLineTables` | internal/chess/attacks.go:202-223 | The line and between tables hold exactly the lines through, and the squares strictly between, two squares. |
| `Network.FeatureIndexInjective` | internal/nnue/network.go:115-122 | Seen from one side, different men or squares never share an input. |
| `Network.InputLayout` | internal/nnue/network.go:115-122 | Own men come first, each kind has a block of 64 in the order pawn to king, and squares are counted from the side's own first rank. |
| `Network.NeuronAddsUp` | internal/nnue/network.go:125-127 | A neuron of an empty board is its bias, and each man adds the number in its input's row and the neuron's column. |
| `Network.Refresh` | internal/nnue/accumulator.go:26-38 | Yields the accumulator defined by the board: bias plus the rows of all men. |
| `Network.Add` | internal/nnue/accumulator.go:70-78 | Turns the accumulator of a board into that of the board with one more man, in 32-bit arithmetic. |
| `Network.Remove` | internal/nnue/accumulator.go:81-89 | Likewise with one man fewer. |
| `Network.Relocate` | internal/nnue/accumulator.go:93-102 | Likewise with one man moved. |
| `Network.FreshFits` | internal/nnue/accumulator.go:8-38 | No accumulator entry of any board leaves 32 bits. |
| `Network.Evaluate` | internal/nnue/accumulator.go:122-147 | Computes the clamped score of the two halves; no step of the 64-bit sum overflows, whatever the weights. |
| `Network.OpponentUnheard` | internal/nnue/accumulator.go:115-136 | Without output weights for the second half the score depends on the mover's half alone. |
| `Network.MoverUnheard` | internal/nnue/accumulator.go:115-136 | Without output weights for the first half it depends on the opponent's half alone. |
| `Network.OneVoice` | internal/nnue/accumulator.go:106-147 | With a single output weight the value is one neuron of the mover (first half) or the opponent (second half), cut to 0..255, times the weight, plus the bias, times 400 over 16320 towards zero, kept within 20000. |
| `BoardSums.TotalAfter` | internal/nnue/incremental.go:108-163 | A move changes a sum over the men by exactly the men it touches, overlapping castling squares included. |
| `Incremental.IncrementalEvaluator.Reset` | internal/nnue/incremental.go:97-102 | Leaves one accumulator, that of the board. |
| `Incremental.IncrementalEvaluator.Push` | internal/nnue/incremental.go:108-163 | Adds the board after the move to the boards stood for, on the stack or as overflow depth. |
| `Incremental.IncrementalEvaluator.Pop` | internal/nnue/incremental.go:167-175 | Drops the last of them. |
| `Incremental.IncrementalEvaluator.PushNull` | internal/nnue/incremental.go:181-188 | Repeats the last of them. |
| `Incremental.IncrementalEvaluator.PopNull` | internal/nnue/incremental.go:191-197 | Drops the repetition. |
| `Incremental.IncrementalEvaluator.Evaluate` | internal/nnue/incremental.go:73-92 | Equals the evaluation of the board from scratch, past the stack's capacity too, and lies within the evaluation limit. |
| `Mirror.AttacksFlip` | internal/chess/attacks.go:246-262 | Attacks commute with turning the board around. |
| `Mirror.FeatureMirrors` | internal/nnue/network.go:115-122 | Mirroring a man and changing the viewpoint leaves its input the same. |
| `Mirror.NetworkIsSymmetric` | internal/nnue/accumulator.go:122-147 | Whatever the weights, a position and its mirror image have the same network value for the side to move. |
| `HandCrafted.InitMasks` | internal/eval/tables.go:201-236 | The mask tables hold: both adjacent files, the file ahead, and for passed pawns the own file and the left neighbour ahead. |
| `HandCrafted.MaskIsDescribedExactlyWhen` | internal/eval/tables.go:188-232 | The passed-pawn mask equals the one described (own and both adjacent files ahead) if and only if the pawn is on the h-file or no rank lies ahead. |
| `HandCrafted.PassedTestIsRightExactlyWhen` | internal/eval/hce.go:187-199 | The test for a passed pawn gives the described answer if and only if it is not the case that it finds no blocker while an enemy pawn stands ahead on the file to the right; it only ever errs towards passed. |
| `HandCrafted.PassedPawnOverlooksRight` | internal/eval/tables.go:221-232 | An example of such a position: White pawn d4, Black pawn e5. |
| `HandCrafted.PawnStructure` | internal/eval/hce.go:167-201 | Sums isolated, doubled and passed terms over all own pawns. |
| `HandCrafted.PawnTermReads` | internal/eval/hce.go:167-201 | A pawn's terms in words: isolated without own pawns on neighbouring files, doubled with one in front on its file, and the table's test for a passed pawn rewarded by the ranks covered. |
| `HandCrafted.OfficerTermReads` | internal/eval/hce.go:112-150 | A piece's terms in words: mobility counts the squares reached that hold no own man and no enemy pawn attacks, pressure the squares reached around the enemy king, and a rook is paid for a file without own pawns. |
| `HandCrafted.EvaluateSide` | internal/eval/hce.go:97-164 | Accumulates exactly the terms of one side. |
| `HandCrafted.SideReads` | internal/eval/hce.go:106-163 | One side adds up its men and pawns, the pair bonus if it has two bishops, and in the middlegame number alone a quarter, cut towards zero, of its pressure on the squares within one step of the enemy king. |
| `HandCrafted.Evaluate` | internal/eval/hce.go:56-93 | Blends both sides by phase, seen from the side to move. |
| `HandCrafted.ValueByPhase` | internal/eval/hce.go:73-92 | At phase 24 or more the value is the middlegame difference with the tempo added, at phase 0 the endgame difference, between them the blend in parts of 24 cut towards zero. |
| `HandCrafted.PhaseDecidesWhichNumbers` | internal/eval/hce.go:19-93 | At full phase no endgame number matters, and without phase no middlegame number does. |
| `HandCrafted.HandCraftedIsSymmetric` | internal/eval/hce.go:56-201 | Whatever weights and tables, a position and its mirror image have the same hand-crafted value for the side to move; truncating division included. |
| `Search.PickMove` | internal/search/ordering.go:85-97 | Brings a move with the highest remaining score to the front, swapping moves and scores alike so that each keeps its own. |
| `Search.State.UpdatePV` | internal/search/negamax.go:335-344 | Writes the move and the child's line into its own row and no other. |
| `Search.State.Quiescence` | internal/search/negamax.go:244-320 | On every return, aborts included, position, history and accumulators are as on entry. Otherwise the score lies inside the widest window, the last ply is worth its evaluation, a draw by rule 0, a checkmate minus 31000 plus its ply, and a side not in check at least its evaluation. |
| `Search.State.Negamax` | internal/search/negamax.go:51-235 | On every return position, history and accumulators are as on entry and no row of a smaller ply is touched; if not aborted the score is in the widest window and the stored line is legal move by move. Below the root a draw by rule is worth 0 and the last ply its evaluation; the root, and a node with an open window that no nearer mate decides, scores a checkmate by its distance and a stalemate 0. |
| `Search.State.TryNull` | internal/search/negamax.go:124-136 | The null-move trial gives everything back and leaves this ply's rows alone. |
| `Search.State.TryMoves` | internal/search/negamax.go:158-229 | The move loop gives everything back; raising alpha stores a line. |
| `Search.State.SearchRoot` | internal/search/search.go:394-432 | A completed iteration leaves a non-empty legal line at the root, through all window widenings. |
| `Search.State.Iterate` | internal/search/search.go:302-358 | The move to play and the move to ponder are legal, one after the other. |
| `Search.FindBest` | internal/search/search.go:220-299 | With any number of threads: returns a move exactly when there is a legal one, and then a legal one, whatever is aborted when. |
| `TranspositionTable.PackRoundTrip` | internal/search/tt.go:64-80 | Every field of the packed word reads back, the generation reduced to six bits; a word with a bound is never zero. |
| `TranspositionTable.MateShift` | internal/search/tt.go:250-270 | A mate score stored at ply p and read at ply q shifts by exactly p minus q; other scores do not move. |
| `TranspositionTable.SearchScoresFit` | internal/search/tt.go:237-238 | All scores of the search fit sixteen bits after adjustment. |
| `TranspositionTable.Table.Probe` | internal/search/tt.go:160-190 | Misses exactly when no slot of the bucket answers to the key; otherwise reports the last effective word stored for it. |
| `TranspositionTable.UsableExactlyWhen` | internal/search/tt.go:173-186 | A stored score is usable if and only if it is deep enough, carries a bound, and every true score the bound allows calls for the same decision: fail high, fail low, or that score. |
| `TranspositionTable.Table.Store` | internal/search/tt.go:198-239 | Writes exactly one slot, the one the policy prescribes (first empty or matching, else least worth), or none when a deeper exact entry would give way to a bound; with a real bound every bucket keeps each key at most once and every slot in use the last effective word for its key. |
| `TranspositionTable.StoreKeepsBucket` | internal/search/tt.go:198-239 | Replacing the chosen slot never leaves two entries for one key. |
| `TranspositionTable.WhatGivesWay` | internal/search/tt.go:191-236 | With nothing vacant or matching, an entry of an older search gives way if and only if one is at most 63 plies deeper than every current one (at 64 if it stands in front), so not always before the current ones as described; among entries alike in age the first of the shallowest does. |
| `TranspositionTable.OlderMayStay` | internal/search/tt.go:191-230 | An instance: an entry of the last search more than 64 plies deeper stays while one of the running search gives way. |
| `TranspositionTable.NoBoundMakesDuplicates` | internal/search/tt.go:205-222 | Why a bound is needed: a store without one leaves a slot that counts as empty in front of slots in use, and the next store of a key behind it leaves that key twice. |
| `TranspositionTable.StoreThenProbe` | internal/search/tt.go:160-239 | Storing and then probing a key always hits: unless the word held outranks the new one and is kept, the probe reports the record just stored, shifted score and usability included, with its move or, if it has none and the key was held, the move known before. |
| `TranspositionTable.Replay` | internal/search/tt.go:160-239 | After any sequence of stores and new searches a probe misses or reports exactly the last record stored for its key to which every later store for that key had to give way. |
| `TranspositionTable.CurrentExactly` | internal/search/tt.go:198-234 | A word written in one generation counts as current in another exactly when the eight bits compared equal the six bits kept. |
| `TranspositionTable.AgeingWorksUpTo64` | internal/search/tt.go:149-234 | What the n-th search stores counts as current to that same search if and only if n, in eight bits, is below 64. |
| `TranspositionTable.EveryInterleavingIsCoherent` | internal/search/tt.go:82-93 | Under every interleaving of the four atomic accesses, an accepted word was once stored whole, and it is the word of the write whose key half was read whenever that write was for the probed key. |
| `TranspositionTable.DeceptionNeedsCoincidence` | internal/search/tt.go:82-93 | A reader can only be given another position's word if two written words differ by exactly the difference of the keys. |
| `FenText.BoardRoundTrip` | internal/chess/position.go:491-518 | The placement field of any board reads back as that board. |
| `FenText.ItoaRoundTrip` | internal/chess/position.go:549-562 | Printed counters read back within the machine range. |
| `FenText.SquareNames` | internal/chess/types.go:166-172 | A square is written as the letter of its file and the digit of its rank. |
| `FenLoops.FEN` | internal/chess/position.go:676-715 | The printing loops produce the text the format defines. |
| `FenLoops.CastlingField` | internal/chess/castling.go:196-216 | Renders the rights in either notation. |
| `FenLoops.SetCastlingRight` | internal/chess/castling.go:125-146 | Records rook, path and revocation masks as prescribed. |
| `FenLoops.FindCastlingRook` | internal/chess/castling.go:162-188 | The inward loop finds what the definition of the search finds. |
| `Fen.FindRookIsOutermost` | internal/chess/castling.go:156-188 | That is the outermost rook on the side asked for, if there is one. |
| `FenLoops.ParseCastlingField` | internal/chess/position.go:580-632 | The parser's loop yields exactly the rights the field means, silently dropping those without rook or king at home. |
| `FenLoops.ParseBoard` | internal/chess/position.go:491-518 | Accepts exactly the well-formed placements and builds that board on the mutable position with all views agreeing. |
| `FenLoops.Validate` | internal/chess/position.go:658-673 | Passes exactly when the side not to move is not in check and no pawn stands on an edge. |
| `FenLoops.ParseFEN` | internal/chess/position.go:482-571 | Refuses, crashes or reads exactly as the specification says; what is read has agreeing views, the computed key, no history, and is consistent whenever it is valid. |
| `StartPosition.NewPositionIsTheStart` | internal/chess/position.go:64-71 | The standard starting text is accepted, so the panic is never reached, and means the usual array, White to move, every right with its corner rook, no target, fresh clocks: a valid position. |
| `Fen.AcceptedRights` | internal/chess/castling.go:120-147 | An accepted position holds exactly the rights that the castling field names with king and rook at home, and each is forfeited on the squares of its king and of the rooks it is named with and nowhere else. |
| `Fen.AcceptedForfeitsAtHome` | internal/chess/position.go:83-85 | In every accepted position a square that forfeits a held right carries that side's king or a rook on the right's side, on the back rank. |
| `Fen.RightsOfAGame` | internal/chess/position.go:288-296 | In a game from a text a right is held after a line of legal moves if and only if the text names it and no move has begun or ended on its king's square or on that of a rook it is named with. |
| `Fen.AcceptedIsValidExactlyWhen` | internal/chess/position.go:482-673 | The position accepted from a text is valid if and only if the clock written in it is not negative and the target written in it is absent, on the capturing side's target rank, or one nobody could capture on. |
| `Fen.NegativeClockIsAccepted` | internal/chess/position.go:549-555 | A negative clock is accepted for every valid position: the first half of that condition is needed. |
| `Fen.OffRankTargetIsAccepted` | internal/chess/position.go:541-547 | A concrete position with a target on the fourth rank is accepted and kept: so is the second half. |
| `Fen.FenRoundTrip` | internal/chess/position.go:676-715 | Parsing the text of a position under its own variant flag gives back board, side, rights, target and clocks, and for each right its recorded rook (Shredder) or the outermost one (classical). |
| `Fen.ValidRoundTrip` | internal/chess/castling.go:156-216 | For valid positions the key comes back too, and rook origins and paths come back if and only if the notation is Shredder's or every held right's rook is outermost. |
| `Samples.SampleRoundTrip` | internal/train/format.go:100-238 | A valid position encodes exactly when it has at most 32 men and a real outcome; decoding returns board, side, rights, target, score, ply and result, and rook origins exactly when they are outermost. |
| `Samples.DecodesToValid` | internal/train/format.go:173-238 | Whatever the 32 bytes, decoding fails cleanly or yields a valid position; it never indexes off the board. |
| `Samples.PlaceRoundTrip` | internal/train/format.go:117-138 | Nibbles paired with squares in index order give the men back. |
| `Samples.MetaRoundTrip` | internal/train/format.go:140-150 | Side, rights and target come back from the two meta bytes. |
| `RecordLayout.Layout` | internal/train/format.go:80-98 | The bytes of a record, bit by bit: the occupancy, the man of each square in the half byte counted by the men below it, the words with the low byte first and negative numbers in two's complement, the result and a zero. |
| `RecordLayout.MetaLayout` | internal/train/format.go:136-150 | Bit 0 is the side, bits 1 to 4 the rights in the order KQkq, and from bit 5 the file of the target or 8. |
| `SampleCodec.EncodeSample` | internal/train/format.go:100-164 | The byte buffer filled by the loops is the packed record, refusals included. |
| `SampleCodec.DecodeSample` | internal/train/format.go:173-238 | The decoding loops return what the record means, and a consistent fresh position. |
| `SampleCodec.BuildFEN` | internal/train/format.go:241-294 | Renders the decoded fields as the text the parser reads. |
| `SampleCodec.Writer.Write` | internal/train/format.go:316-326 | Appends one record and counts it exactly when the sample encodes and the stream takes all of it; a failing stream keeps the bytes it took and the counter stays. |
| `SampleCodec.BrokenWriteIsNoticed` | internal/train/format.go:413-424 | A file cut inside a record by a failed write is never counted as whole. |
| `SampleCodec.Reader.Read` | internal/train/format.go:372-381 | The next sample, the end, a record cut short, or a record that does not decode. |
| `SampleCodec.Reader.ReadAll` | internal/train/format.go:384-396 | Returns the samples up to the end, or up to the first record cut short or malformed, which it reports; every sample returned holds a valid position. |
| `SampleCodec.Reader.CountRest` | internal/train/format.go:413-424 | Counts whole records and reports exactly whether bytes are left over. |
| `SampleCodec.WriteThenRead` | internal/train/format.go:303-424 | Samples of valid positions that were written are read back in order, the same but for the clocks and with the rook origins written exactly when they are outermost; Count agrees with the number written. |
| `DataFile.FrameRoundTrip` | internal/train/format.go:303-396 | Cutting a framed file at record boundaries gives the records written. |
| `DataFile.CountOfFrame` | internal/train/format.go:352-424 | A whole file counts its records; a truncated one is rejected exactly unless it is cut between two records. |
| `UnitNames.UnitIndexInvertsNaming` | internal/coordinator/coordinator.go:545-566 | Reading an index from a file name inverts the printing exactly, in both directions, within 64-bit integers. |
| `UnitNames.StoredNameGivesIndex` | internal/coordinator/coordinator.go:541-607 | Wherever the store puts an artifact, its name gives the index back. |
| `UnitNames.UnitIDsDiffer` | internal/coordinator/coordinator.go:597-607 | No two units of any generations share an ID. |
| `Ledgers.StreamTotal` | internal/coordinator/coordinator.go:244-316 | For any stream of batches in any order and with any repetitions, positions grow by the sum over the distinct newly reported units, each once. |
| `Ledgers.BalanceIsSafe` | internal/coordinator/coordinator.go:319-335 | Issued minus resolved never exceeds the number of published units that have not reported back. |
| `Ledgers.SettleKeepsSound` | internal/coordinator/coordinator.go:244-316 | Counting or rejecting a claimed batch keeps every unit counted at most once. |
| `Ledgers.WalkKeepsSound` | internal/coordinator/coordinator.go:336-366 | Stepping over or publishing an index keeps published and covered indices a partition of the prefix. |
| `CoordinatorState.Coordinator.Receive` | internal/coordinator/coordinator.go:251-270 | The first critical section claims a unit of this generation exactly once. |
| `CoordinatorState.Coordinator.Conclude` | internal/coordinator/coordinator.go:272-315 | The second counts the batch exactly if it has positions and verifies, and signals completion at the target. |
| `CoordinatorState.Coordinator.HandleBatch` | internal/coordinator/coordinator.go:244-316 | Both together, as on an undisturbed delivery. |
| `CoordinatorState.Coordinator.WalkOn` | internal/coordinator/coordinator.go:336-366 | One turn of the loop; a failed publish gives the index back. |
| `CoordinatorState.Coordinator.TopUp` | internal/coordinator/coordinator.go:319-368 | On success exactly the work that was missing is published, the uncovered indices walked over in order, and at least UnitsInFlight published units are unresolved; otherwise the context ended or a publish failed, no more than that is published, and no gap is left. |
| `CoordinatorState.Coordinator.Resume` | internal/coordinator/coordinator.go:409-539 | Takes over exactly the listed artifacts that validate and are not already resolved. |
| `CoordinatorState.CoverAllKnows` | internal/coordinator/coordinator.go:409-539 | After a resume every unit with a valid artifact is resolved and none covered had been resolved before. |
| `CoordinatorState.Coordinator.Announce` | internal/coordinator/coordinator.go:610-628 | Publishes the counted artifacts with their exact total. |
| `CoordinatorState.Coordinator.RunGeneration` | internal/coordinator/coordinator.go:175-241 | A dataset is announced at most once, only at or above the target, with the counted artifacts and their exact total; complete means announced, and a run that ends at or above the target without cancellation or a failing broker, having looked last whether it is done, is complete. |
| `SelfPlay.StepKeeps` | internal/worker/worker.go:134-229 | Every step of every worker, the queue, the store and the coordinator keeps the protocol invariant, and no stored artifact ever changes. |
| `SelfPlay.EveryRunIsSafe` | internal/worker/worker.go:134-229 | Hence it holds over every interleaving of deliveries, crashes, rejections, replays and restarts. |
| `SelfPlay.IssuedWorkIsNeverLost` | internal/bus/nats.go:424-443 | An issued unit is in the work stream or has a durable announcement. |
| `SelfPlay.AnnouncementsVerifyForever` | internal/store/fs.go:114-169 | An announced checksum, size and count match the stored artifact, at once and after any further steps. |
| `SelfPlay.RenameKeeps` | internal/store/fs.go:114-202 | Publishing by rename exposes only whole artifacts; replays put the same bytes there. |
| `SelfPlay.AcknowledgeKeeps` | internal/worker/worker.go:181-200 | Acknowledging only after the announcement is durable loses nothing. |
| `SelfPlay.TempIsNoArtifact` | internal/store/fs.go:177-202 | A temporary file left by a crash is never taken for a unit's artifact. |
| `SelfPlay.UnitsAreCountedOnce` | internal/coordinator/coordinator.go:244-316 | However often restarted, a coordinator counts each unit at most once and for exactly what it played. |
| `SelfPlay.DatasetsStayExact` | internal/coordinator/coordinator.go:610-628 | An announced dataset lists distinct stored artifacts that reach the target and hold exactly the positions claimed, for ever. |
| `Gate.PlayPair` | internal/gate/match.go:186-219 | The loop over both colours yields the candidate's tally of the pair, or fails when there is no opening or a game fails. |
| `Gate.PairCounts` | internal/gate/match.go:186-219 | Each of the two games counts once for whoever won it, the candidate having White in the first and Black in the second. |
| `Gate.PairIsFair` | internal/gate/match.go:186-219 | Exchanging candidate and incumbent exchanges wins and losses; against itself nobody gains. |
| `Gate.Report.Fold` | internal/gate/gate.go:149-164 | The report always shows the tally of all arrivals and the verdict of the first prefix that crossed a bound. |
| `Gate.DecidingIsFirst` | internal/gate/gate.go:136-164 | That prefix is the first one: nothing shorter crosses. |
| `Gate.VerdictLatches` | internal/gate/gate.go:136-164 | No later arrival changes verdict or likelihood ratio. |
| `Gate.EveryScheduleIsSafe` | internal/gate/match.go:235-320 | Under every schedule each index handed out is with one worker, delivered, or lost to an interruption that the result or the verdict shows. |
| `Gate.DeliveredAtMostOnce` | internal/gate/match.go:235-320 | Each pair is delivered at most once and as it would be played alone, and the call returns only when all workers have exited. |
| `Gate.StopsForACause` | internal/gate/match.go:254-310 | Under every schedule a match is called off exactly when the caller ends it, a verdict is reached or a pair has failed; it returns the caller's cancellation if there was one, else the failure of an unplayable pair that was not delivered, else success. |
| `Gate.UndecidedMeansComplete` | internal/gate/match.go:235-320 | Success without a verdict means every pair was delivered. |
| `Gate.CompleteTallyIsScheduleIndependent` | internal/gate/match.go:220-234 | The tally of a complete match equals the sequential one, whatever the schedule. |
| `Gate.NeverStuck` | internal/gate/match.go:235-320 | While the call runs some goroutine can take a step without any cancellation: there is no deadlock. |
| `Gate.StepLowers` | internal/gate/match.go:235-320 | Every step but the caller's own cancellation lowers what is left to do. |
| `Gate.StepsAreBounded` | internal/gate/match.go:235-320 | No schedule takes more steps than three per pair, one per worker and two more before the call has returned. |
| `Gate.AlwaysReturns` | internal/gate/match.go:235-320 | From every reachable state the call can be carried to its return without cancelling. |

## Left out

- Bitboards are sets of squares above the word level; that 64-bit operations implement them is proved for popping, the carry-rippler, the magic index and the diagonal shifts; unions, intersections and complements are bitwise.
- Arrays inside structures (board, history, accumulator stack, principal variation table, buckets, mask tables) are sequences or maps that the methods reassign; the source copies or owns them, so no aliasing is lost.
- MoveGen.MoveList: the capacity of 256 moves is not modelled.
- Attacks.InitMagics: the random search for multipliers is a given list of candidates for each square; that it ends with one accepted is not proved.
- Repetition.WindowIsWholeGame: assumes that no two positions of the game share a key, and that no null move is in the history.
- Search.State.Negamax: that the score is a minimax value is not claimed, since the pruning is heuristic; node counts, history counters and killer contents are not specified, table answers and the stop signal are arbitrary inputs, and scores read from the table are taken to lie strictly inside the widest window.
- Search.FindBest: the threads of one search share nothing but the table, whose answers are arbitrary here, so they are run one after the other; time management and progress output are not part of the model.
- Incremental.IncrementalEvaluator.Push: Reset before the first Push, as the source demands.
- HandCrafted.Evaluate: machine width of the hand-crafted sums is not modelled, and attack sets are taken from the geometry rather than from the tables that Attacks proves equal to it.
- TranspositionTable.Table.Store: sequential; interleaving is treated for one slot by the shared-slot model, with the two atomic loads and stores as its steps. The table's size in megabytes, Clear and Hashfull are left out.
- FenLoops.ParseFEN: error texts, and white space outside ASCII, are not modelled; a target off the board, where the source would panic, is the outcome Crashed.
- SampleCodec.WriteThenRead: read errors of the underlying stream.
- Samples.DecodesToValid: the result byte and the high meta bits are not checked by the source either, so re-encoding arbitrary decoded bytes is not claimed.
- CoordinatorState.Coordinator.RunGeneration: seeds and the unchanging settings of a unit are one abstract function of its index; positions in a batch are taken to be non-negative; progress reports and logging are left out.
- CoordinatorState.Coordinator.Resume: the concurrent scan is one pass over the listing, since its results are applied in listing order; context cancellation during the scan is left out.
- SelfPlay.EveryRunIsSafe: one generation with unchanging settings, announcements within the stream's retention, files never deleted, and generation a deterministic function of the unit; liveness (that a unit is eventually played) is not claimed. Undecodable messages, which are dropped or terminated, do not occur.
- Gate.EveryScheduleIsSafe: a pair's result is a function of its index; playGame, the opening book and the logarithms of the sequential test are parameters.
- Training of networks, network file reading and writing, UCI, Lichess, HTTP, dashboards and Kubernetes are not part of the model.
- Move ordering scores, opening randomisation and the generator's choice of games are not modelled: they would add members without a law of their own.
