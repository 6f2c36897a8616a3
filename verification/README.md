# Chess labelling pipeline — Dafny model

This project models the decision logic of the three dataset builders of a
chess "human move" dataset:

- **Position sampler** (`extract_positions.py`). It walks a corpus of games and skips games shorter than 10 plies. It draws up to `len − 5` random ply indices in `[5, len − 1]` and keeps the first position where the game is not over. Each kept position is recorded with its FEN, game phase, move number, side to move and material balance. It stops after `max_positions` positions or when the corpus runs out.
- **Labelling session** (`play_positions.py`). This is the pygame loop. It resumes after the rows already in the output table, and the user clicks a piece and then a destination. Every legal move appends a record and rewrites the output table. "Go Back" drops the last record, and closing the window ends the session.
- **Deviation scorer** (`stockfish_analysis.py`). It evaluates every labelled position before and after the user's move and fills four columns: `eval_before`, `eval_after`, `best_move` and the deviation. Engine failures become `None` entries.

Files (one module each):

| file | module | models |
|---|---|---|
| options.dfy | `Options` | `None` as a value |
| chess.dfy | `Chess` | boards, pieces, moves; the rules library as supplied operations |
| material.dfy | `Material` | piece values, material balance, game phase |
| sampler.dfy | `Sampler` | the sampling loop |
| mouse.dfy | `Mouse` | pixel → square arithmetic and the "Go Back" hit test |
| session.dfy | `Session` | the labelling state machine, resumption, whole-session invariant |
| batch_finding.dfy | `BatchFinding` | the event loop exactly as written, and the input that shows its flaw |
| scorer.dfy | `Scorer` | per-row scoring, null propagation, deviation |

External collaborators are parameters. The rules library becomes a `Rules` value of functions (`isLegal`, `push`, `isGameOver`, `fen`, `decode`, `uci`) over a board held as data: 64 squares, the side to move and the enumerated legal-move list. The enumerated list gives the highlighted destinations. The library's legality test `isLegal` decides whether a clicked move is played, and it also accepts castling clicked as king-onto-own-rook (e1h1), which the enumeration lists as e1g1. The random generator is `rand(game, attempt)`. The Stockfish engine becomes one `RowTrace` per row. Clock readings are integers in hundredths of a second.

## Model

| member | source | states |
|---|---|---|
| Material.ClassifyPhase | dataset_builders/extract_positions.py:17-31 | opening exactly when the move number is below 10; at 10 or above, endgame exactly when at most 6 queens, rooks, bishops and knights (both colours) remain, middlegame otherwise |
| Material.PieceValue | dataset_builders/extract_positions.py:8-14 | exactly the king counts 0 (it has no entry in the table); no piece counts more than the queen's 9 |
| Material.SideMaterialByKind | dataset_builders/extract_positions.py:8-14 | a side's material is its pawn count plus 3 per knight and bishop, 5 per rook and 9 per queen, kings adding nothing |
| Material.MaterialDiffByKind | dataset_builders/extract_positions.py:34-47 | the balance is the sum over piece kinds of (White's count − Black's count) times the kind's value |
| Material.OpeningWhateverTheBoard | dataset_builders/extract_positions.py:23-24 | below move 10 any two boards get the same phase, opening |
| Material.PhaseSwapColors | dataset_builders/extract_positions.py:26-31 | the phase ignores piece colours: exchanging all colours keeps it |
| Material.EndgameSurvivesCapture | dataset_builders/extract_positions.py:26-31 | removing a piece from an endgame board leaves it an endgame |
| Material.MaterialDiffIsSignedSum | dataset_builders/extract_positions.py:34-47 | White's sum minus Black's sum equals one signed sum over the squares (White +value, Black −value, king 0) |
| Material.MaterialDiffSwapColors | dataset_builders/extract_positions.py:39-47 | exchanging the colours of all pieces negates the balance |
| Material.RemoveBlackQueen | dataset_builders/extract_positions.py:8-14 | taking a black queen off any board raises the balance by exactly 9 |
| Material.StartPositionBalanced | dataset_builders/extract_positions.py:39-47 | the standard starting position has balance 0 (39 points each side) |
| Material.StartWithoutBlackQueen | dataset_builders/extract_positions.py:8-14 | the starting position without Black's queen has balance 9 |
| Sampler.RandInt | dataset_builders/extract_positions.py:72 | `randint(lo, hi)` lies in `[lo, hi]` |
| Sampler.DrawnPly | dataset_builders/extract_positions.py:72 | every drawn ply index lies in `[5, len − 1]` |
| Sampler.PositionAt | dataset_builders/extract_positions.py:80-87 | the record after `idx` plies has move number `idx + 1` and the FEN, side to move, phase and balance of the board reached by replaying `idx` moves |
| Sampler.FirstAcceptedFrom | dataset_builders/extract_positions.py:71-89 | attempts from `a` on give nothing exactly when every attempt is drawn onto a finished game; otherwise the attempt found is the first one whose board is not over |
| Sampler.SampleGame | dataset_builders/extract_positions.py:65-67 | games under 10 plies give nothing |
| Sampler.SampleGameSpec | dataset_builders/extract_positions.py:65-89 | a game of at least 10 plies gives nothing exactly when all `len − 5` attempts hit a finished game, else the record of the first attempt that does not |
| Sampler.SampledPositionSound | dataset_builders/extract_positions.py:72-87 | a sampled record has move number in `[6, len]`, the game is not over there, and its FEN/turn/phase/balance describe that board |
| Sampler.SampleGameWhenNeverOver | dataset_builders/extract_positions.py:66-78 | if no position is ever game-over, a game yields a position exactly when it has at least 10 plies |
| Sampler.Candidates | dataset_builders/extract_positions.py:60-89 | the first `n` games contribute at most `n` positions |
| Sampler.JoinedPrefix | dataset_builders/extract_positions.py:59-89 | appending per-game contributions in order makes each shorter join a prefix of a longer one |
| Sampler.JoinedOrigin | dataset_builders/extract_positions.py:59-89 | with at most one element per game, the `i`-th element of the join is the single contribution of a game with exactly `i` elements before it |
| Sampler.Contributions | dataset_builders/extract_positions.py:65-89 | each game contributes its sampled position or nothing, so at most one position |
| Sampler.CandidatesPrefix | dataset_builders/extract_positions.py:60-89 | reading more games only appends to the output |
| Sampler.CandidateOrigin | dataset_builders/extract_positions.py:60-89 | the `i`-th output comes from one game that has exactly `i` outputs before it: at most one per game, in corpus order |
| Sampler.LoopExit | dataset_builders/extract_positions.py:60-92 | wherever the corpus loop stops, what it has is the first `max_positions` positions of the whole corpus |
| Sampler.SampleOne | dataset_builders/extract_positions.py:70-89 | the attempt loop of one game returns exactly what `SampleGame` specifies |
| Sampler.ScanGame | dataset_builders/extract_positions.py:61-92 | one round of the corpus loop turns the output for the first `g` games into the output for the first `g + 1`, staying within the limit; it reports a sample exactly when one position was appended, and otherwise leaves the output unchanged (too-short game, or every attempt over) |
| Sampler.ExtractPositions | dataset_builders/extract_positions.py:50-98 | the result is the first `max_positions` positions of the corpus in order: empty for `max_positions <= 0`, never longer than the limit, and the whole corpus's positions when fewer |
| Mouse.SquareFromMouse | dataset_builders/play_positions.py:100-116 | on the board, the result is a square 0..63; on the board and unflipped, its file is `x div 80` and its rank `7 − (y − 30) div 80` (the flipped case is `Mouse.FlipMirrorsSquare`) |
| Mouse.FlipMirrorsSquare | dataset_builders/play_positions.py:111-116 | the flipped square is 63 minus the unflipped one |
| Mouse.GoBackHitArea | dataset_builders/play_positions.py:118-129 | every pixel of the painted button goes back; the hit test also accepts exactly one extra column on the right and one extra row below the painted rectangle |
| Mouse.GoBackIsOffBoard | dataset_builders/play_positions.py:118-129 | a click on the button is never on the board |
| Mouse.ClickSelectsDrawnSquare | dataset_builders/play_positions.py:69-78 | every pixel of the cell where `draw_board` paints a square maps back to that square, in both orientations |
| Mouse.EverySquareClickable | dataset_builders/play_positions.py:69-78 | each square is drawn in some cell, and its centre pixel selects it |
| Session.LegalTargets | dataset_builders/play_positions.py:173 | a square is listed exactly when some legal move goes from the selected square to it |
| Session.Record | dataset_builders/play_positions.py:189-197 | the record copies fen, phase, move number, turn and balance from the table row |
| Session.Enter | dataset_builders/play_positions.py:133-140 | a new position shows table row `index`, decoded afresh, with no selection, no notice and the timer restarted |
| Session.GoBack | dataset_builders/play_positions.py:152-165 | with records present: exactly the last is removed, the cursor drops by one, the file is rewritten to the records, the earlier row is shown with the selection cleared; otherwise only the notice changes |
| Session.Commit | dataset_builders/play_positions.py:186-200 | one record (current row + move text + elapsed time) is appended, the file is rewritten to the records, the cursor advances, the move is marked made |
| Session.Click | dataset_builders/play_positions.py:167-204 | with no selection: a piece of the side to move is selected with its enumerated legal targets, anything else gives "Invalid piece" and nothing else changes; the selected square again cancels; a pair the library's legality test rejects resets the selection only; a pair it accepts (castling clicked onto the rook included) commits |
| Session.Step | dataset_builders/play_positions.py:146-165 | a quit only stops the loop; other events and other buttons change nothing; the button goes back; a board click is a square click in the board's orientation; the cursor moves by at most one |
| Session.StepPreserves | dataset_builders/play_positions.py:146-204 | every event on a shown position keeps the invariant (cursor = record count, file = records, row and board match the cursor, a selection holds a piece of the side to move) and keeps every record either the untouched resumed record at its index or describing its own row |
| Session.Batch | dataset_builders/play_positions.py:142-204 | a poll, left once a move is made, keeps the invariant and adds at most one record |
| Session.BatchAligned | dataset_builders/play_positions.py:142-204 | the corrected poll keeps every record either the untouched resumed record at its index or describing its own row |
| Session.Run | dataset_builders/play_positions.py:132-204 | the corrected main loop keeps the invariant and adds at most one record per poll |
| Session.RunAligned | dataset_builders/play_positions.py:132-204 | the corrected main loop keeps every record either the untouched resumed record at its index or describing its own row |
| Session.Resumed | dataset_builders/play_positions.py:31-36 | a readable output table resumes with exactly its records; a missing or zero-byte file resumes with none |
| Session.Start | dataset_builders/play_positions.py:29-36 | an unparsable non-empty output file stops the script; otherwise start-up resumes with cursor = number of stored records, and the loop runs exactly when that is below the table length |
| Session.SessionTheorem | dataset_builders/play_positions.py:29-204 | for any input, the file equals the records, the cursor counts them, and every record is either the resumed record at its own index, untouched, or copies the row at its own index and holds a promotion-free move the library accepts as legal there, so a record re-labelled after going back below the resume point describes its row |
| Session.CommitThenGoBack | dataset_builders/play_positions.py:152-200 | a commit followed by "Go Back" restores the records, the file, the cursor, the row and the board |
| BatchFinding.BatchAsWritten | dataset_builders/play_positions.py:146-204 | the poll as written handles every event, even after a move or a close: it stops the script only on a "Go Back" past the end of the table, which cannot happen while the poll is no longer than the rows left, and then the file left on disk is the records less the last one; on completion the cursor has grown by at most one per event, and it still counts the records, which the file still holds |
| BatchFinding.QuitDoesNotStopThePoll | dataset_builders/play_positions.py:146-200 | after the window is closed, a select-and-move later in the same poll still writes a record as written; the corrected poll writes none |
| BatchFinding.SecondRecordInOnePoll | dataset_builders/play_positions.py:146-204 | a five-click poll makes the as-written loop store two records, the second with the previous row's FEN; the corrected loop stores one aligned record |
| Scorer.Deviation | dataset_builders/stockfish_analysis.py:61-71 | the deviation is never negative unless a mate announced before the move is lost, and an unchanged evaluation scores 0 |
| Scorer.DeviationCases | dataset_builders/stockfish_analysis.py:61-71 | no mate before: `abs(before − after)`, never negative; mate before and after: 0; mate lost: `1000 − after` |
| Scorer.UnchangedEvalNoDeviation | dataset_builders/stockfish_analysis.py:61-71 | an evaluation left unchanged scores 0 |
| Scorer.DeviationMirrorSymmetric | dataset_builders/stockfish_analysis.py:70-71 | without a mate before, mirroring both scores keeps the deviation |
| Scorer.MateLostIsSigned | dataset_builders/stockfish_analysis.py:67-69 | a lost mate is scored `1000 − after`, so it can be negative and is not mirror-symmetric |
| Scorer.ScoreRow | dataset_builders/stockfish_analysis.py:26-71 | first evaluation failed: all four entries `None`; second failed: `eval_before` and `best_move` kept, `eval_after` and deviation `None`; deviation is `None` exactly when `eval_after` is |
| Scorer.ScoreTable | dataset_builders/stockfish_analysis.py:15-78 | nothing is written exactly when some row raises outside a `try`; otherwise one output row per input row, in order, each with its own trace's four entries (the four columns have the table's length) |

## Findings

| source | as written | input that shows it | evidently intended | confidence | as-written member | corrected member |
|---|---|---|---|---|---|---|
| dataset_builders/play_positions.py:142-204 | after a move is made, the rest of the same `pygame.event.get()` poll is still handled against the pushed board, with the old table row and the old timer; the same holds after the window is closed (line 148 sets the flags but does not leave the poll), so a later select-and-move still writes a record (`BatchFinding.QuitDoesNotStopThePoll`) | one poll of five left clicks (360,550), (360,390), (280,550), (280,550), (280,390) on a one-pawn position: e2-e4 is committed, then Black's e7-e5 is committed too and stored under row 0's FEN at index 1 | one move per shown position: leave the poll once `move_made` is set | medium, not executed | BatchFinding.SecondRecordInOnePoll | Session.Batch |

`Session.Run`, `Session.RunAligned` and `Session.SessionTheorem` use the corrected poll.

## Behaviour worth knowing

- Deviation. It is 0 when the engine reports a mate both before and after the move, `1000 − after_cp` when a mate reported before the move is gone after it, and `abs(before − after)` otherwise. So a deviation can be negative (`Scorer.MateLostIsSigned`). There is no special case for positions where the game has ended.
- Random indices are drawn with replacement, so the same ply can be tried more than once.
- If the output table already has as many rows as the position table, start-up raises no error. The loop simply does not run (`Session.Start` gives `NothingToLabel`).
- A row whose FEN or move text cannot be read, or whose move cannot be pushed, raises outside any `try`. The whole scoring script then stops and writes nothing; only engine failures become `None` entries.

## Left out

- Rendering, window set-up, image loading and fonts (play_positions.py:24-27, 38-98) are left out as pure UI. Only the square placement of `draw_board` is used, as the partner of the click arithmetic.
- CSV reading and writing and `save_to_csv` are left out as file I/O. The output file is the `persisted` field, rewritten by every change, and type conversions on re-reading a CSV are not modelled.
- The internals of python-chess are supplied operations of `Rules`: PGN reading, FEN text, move generation, `push`, `is_game_over` and UCI text. The legal-move list is part of the board value.
- The Stockfish process, `analyse` with its 0.1 s limit, and the mate-to-centipawn conversion are left out as an external engine. Each row's outcome is a `RowTrace`, and `cp` is taken as given.
- `random.randint` is reduced to a raw value per (game, attempt). Its distribution is not modelled.
- Wall-clock time and float rounding are left out. Clock readings are integer hundredths of a second, so `round(…, 2)` is exact, and the timer restart at the top of the loop uses the clock reading of the next poll.
- Progress printing (extract_positions.py:94-96) and the final messages are left out as console output.
- Session.Step: requires that a left click lands on the board or on the button. The source computes squares outside 0..63 for clicks in the timer and info strips, and what python-chess then does with them is not modelled. It also requires that a "Go Back" does not need a row past the end of the table; the source raises there after popping the last record and rewriting the file, and `BatchFinding.BatchAsWritten`, the only loop that can get that far, models that as its `Raised` outcome carrying the rewritten file.
- Chess.Board: a board holds the placement, the side to move and the enumerated legal moves, but no castling rights, en-passant square, move counters or earlier positions. So `fen` and `isGameOver` give the same answer for two boards that agree on those three parts. The real library also looks at history: the FEN text includes the counters, and fivefold repetition or the 75-move rule can end a game whose placement occurred before.
- Session.Start: which output files the table reader cannot parse is an input (`Unparsable`), not derived. For example, the file written after "Go Back" removes the last record may hold no columns, and then the next start-up may fail to read it. That depends on pandas' writer and reader, which are not modelled.
