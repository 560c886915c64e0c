# Chess move generation of `script.js`, modelled in Dafny

`script.js` is a two-player chess board that runs in the browser. The model keeps its rule logic and drops the DOM:

- **Board.** A grid of piece symbols. Lower case is white, upper case is black, and `.` is empty.
- **Board operations.** `isOnBoard` and `movePiece`.
- **Game object.** It holds the side to move, the orientation (`+1` for white, `-1` for black), the pending selection and the per-turn legal-move index. The index is a map from a square to that square's move list.
- **Move generator.** `legalMoves` concatenates two mechanisms:
  - the condition rules: the pawn's one and two steps, pawn captures, king steps, and the empty en-passant, promotion and castling hooks;
  - the ray rules: rook, bishop and queen rays, and knight rays capped at one step.
- **Attack query.** `isPositionUnderAttack` scans the index.
- **Index rebuild.** `updateLegalMoves` refreshes the index square by square.
- **Click machine.** `onCellClick` either selects a piece or plays a move, and `toggleTurn` hands the turn over.

The project is laid out in modules:

- `Wrappers` (`wrappers.dfy`): `Option`.
- `Geometry` (`geometry.dfy`): `Vector` and its arithmetic.
- `Pieces` (`pieces.dfy`): colours, and decoding and encoding of piece symbols.
- `Boards` (`board.dfy`):
  - the `Grid` value;
  - the `Board` class, whose cells `MovePiece` reassigns;
  - the row-major order of squares.
- `Rules` (`rules.dfy`): the move generator as pure functions over a `State` snapshot. A snapshot holds the grid, the side to move, the orientation and the index.
  - The closures of the `moveConditions` and `moveRays` tables become the datatypes `Condition` and `Ray`, interpreted by `ApplyCondition` and `Walk`.
  - `Rebuild` is the whole `updateLegalMoves` pass.
- `RuleFacts` (`rule_facts.dfy`): what the rules guarantee.
- `Chess` (`game.dfy`): the `Game` class, plus the looping procedures `legalMoves`, `legalMovesByCondition` and `legalMovesByRay`. Each is a method proved equal to its counterpart in `Rules`.
- `Scenarios` (`scenarios.dfy`): the starting position and other concrete boards.

Where the code behaves differently from what a reader of the rules would expect, the model follows the code:

- **King beside a rook.** One would expect a white king at (4,4) next to a black rook at (4,0) to be kept off (4,3). The code lets it step there. The attack query counts only `"capture"` moves, and the rook's moves along the rank to (4,1)..(4,3) are displacements. `Scenarios.KingBesideRookMayStepAlongTheRank` proves that the king's entry lists all eight neighbours.
- **Rebuilding twice.** One would expect a second `updateLegalMoves` on an unchanged board to leave the index as it is. It does on boards without kings (`RuleFacts.RebuildIdempotentWithoutKings`). With kings it need not: each king step is checked against the index while the index is being rebuilt, so a king's entry depends on the index it was computed against. `Scenarios.RebuildNotIdempotentWithKings` exhibits the board `K...` / `.n.R`, white to move, started from an empty index. The first rebuild lists the black king's capture of the knight at (1,1); the second drops it, because the rook's new entry at (1,3) captures (1,1).
- **Stale entries.** `updateLegalMoves` never clears the map. A square that has become empty keeps its old entry, and that entry still feeds the attack query (`RuleFacts.RebuildKeys`).
- **Highlights can block a selection.** `onCellClick` calls `highlightMoves` before it records the selection, and `highlightCell` throws on a square that has no cell. Pawn steps are not checked against the board's edge, so a pawn of the side to move on the far rank, or on the rank before it with the square ahead empty, lists an off-board square and can never be selected (`RuleFacts.PawnNearFarEdgeNeverSelected`, `Scenarios.LonePawnNeverSelected`). The model's click leaves the game unchanged in that case.

## Model

| member | source | states |
|---|---|---|
| Geometry.IsEqualToIsEquality | script.js:173 | `isEqualTo` holds exactly when the two positions are equal values, so positions can key the index |
| Geometry.MirrorInvolutive | script.js:172 | scaling by the orientation -1 negates both components and undoes itself |
| Geometry.SumUndone | script.js:171-172 | adding a vector and then the vector scaled by -1 gives the starting position back |
| Geometry.ScaledAdds | script.js:171-172 | walking `j` steps and then `k` steps along a direction reaches the square `j + k` steps away |
| Pieces.Opponent | script.js:162-163 | the other colour is never the given one |
| Pieces.Lower | script.js:131-133 | lower-casing a piece symbol gives one of the six kinds, and leaves the symbol unchanged exactly when it is a white (lower-case) symbol |
| Pieces.DecodeSymbol | script.js:131-134 | each of the twelve symbols decodes to one of the six kinds, and its colour is white exactly for the lower-case symbols |
| Pieces.DecodeEncode | script.js:131-134 | encoding a piece and decoding the symbol gives the piece back |
| Pieces.EncodeDecode | script.js:131-134 | decoding a symbol and re-encoding it gives the symbol back |
| Boards.Grid.GetPiece | script.js:31-35 | the board reads `None` exactly on the empty marker, and otherwise the stored piece symbol |
| Boards.Grid.SetPiece | script.js:27-30 | the written square reads back the new symbol, and every other square is unchanged |
| Boards.Grid.Moved | script.js:22-26 | `to` receives what `from` held, `from` becomes empty unless it is `to`, and no other square changes |
| Boards.GridExtensionality | script.js:31-35 | two boards of the same size that read the same on every square are equal |
| Boards.MoveThenMoveBack | script.js:22-26 | moving a piece onto an empty square and back restores the board |
| Boards.Row | script.js:138-139 | the inner loop visits columns 0 .. cols-1 of the row, in order |
| Boards.RowMajorCovers | script.js:137-139 | the nested loops visit a square exactly when it is on the board in the sense of `isOnBoard` (rows and columns from 0 up to, not including, the board size) |
| Boards.RowMajorFirst | script.js:137-139 | the nested loops visit (0,0) first and never again |
| Boards.Normalize | script.js:27-35 | a stored cell is a piece symbol or empty, and a piece symbol is kept as it is |
| Boards.FromRows | script.js:2-21 | the board has as many rows as the description, the first row's width, and each cell holds the normalised symbol of the description |
| Boards.Board.constructor | script.js:2-21 | the new board's contents are those of `FromRows` |
| Boards.Board.MovePiece | script.js:22-26 | the new contents are the old contents with the piece moved, and the board stays well formed |
| Rules.Dests | script.js:106 | a square is among the destinations exactly when some move of the list lands on it |
| Rules.IsLegalDestination | script.js:104-108 | `to` is a legal destination exactly when some move listed for `from` lands on it |
| Rules.MoveRays | script.js:317-326 | no ray in any table has a zero direction, so every walk leaves its start |
| Rules.Refresh | script.js:139-144 | one refresh changes only the index, never the board, the side to move or the orientation |
| Rules.RebuildOver | script.js:137-146 | the same holds for a run of refreshes |
| RuleFacts.GetPieceSpec | script.js:123-135 | `getPiece` is total: it gives none off the board or on an empty cell, and otherwise the kind is the lower-cased symbol and the colour is white exactly for lower-case symbols |
| RuleFacts.RebuildOverAppend | script.js:136-147 | refreshing one run of squares and then another is refreshing their concatenation, so the row-by-row loop performs the whole rebuild |
| RuleFacts.RebuildOverKeys | script.js:136-147 | after refreshing a run of squares, the keys are the old keys plus the occupied squares of the run, and entries of empty squares are untouched |
| RuleFacts.RebuildKeys | script.js:136-147 | after a rebuild, the keys are the old keys plus every occupied square, and the entries of empty squares are kept, not cleared |
| RuleFacts.WalkSquare | script.js:231-236 | the i-th square a ray emits is position + direction·orient·(k+i), and it is on the board |
| RuleFacts.WalkContiguous | script.js:231-236 | each square a ray emits is one oriented step beyond the previous one, so a walk has no gaps |
| RuleFacts.WalkWithinCap | script.js:233 | a capped ray never emits beyond its step cap |
| RuleFacts.WalkSquares | script.js:210-239 | every emitted square is on the board at the strictly increasing steps 1, 2, …, and a capped ray stays within its cap |
| RuleFacts.WalkMoveKind | script.js:217-225 | an emitted square is a displacement exactly when it is empty, and a capture is the last move and lands on an opposing piece |
| RuleFacts.WalkStop | script.js:213-222 | a walk that does not end in a capture stops at its cap, at the board's edge or at a friendly piece |
| RuleFacts.WalkEffects | script.js:210-229 | the kinds of all emitted moves and the reason the walk stopped |
| RuleFacts.RayStopsAtFirstPiece | script.js:218-224 | every move before the last one is a displacement onto an empty square, so nothing beyond the first piece is emitted |
| RuleFacts.KnightRaysAtMostOne | script.js:321-324 | each knight ray emits at most one square |
| RuleFacts.RayMovesAppend | script.js:212-227 | the moves of a concatenation of ray lists are the concatenation of their moves |
| RuleFacts.QueenIsRookThenBishop | script.js:326 | the queen's ray moves are the rook's followed by the bishop's |
| RuleFacts.RayMovesIncludes | script.js:210-229 | every move of every ray walk appears in the piece's ray moves |
| RuleFacts.RayMovesFromSomeRay | script.js:212-227 | every ray move comes from one of the piece's rays |
| RuleFacts.ConditionMovesIncludes | script.js:199-208 | every move a condition yields appears in the piece's condition moves |
| RuleFacts.ConditionMovesFromSomeCondition | script.js:199-208 | every condition move is the result of one of the piece's conditions |
| RuleFacts.ConditionMovesInOrder | script.js:199-208 | when the first n conditions give moves and the rest give none, the result is exactly those moves, in table order |
| RuleFacts.RayMovesOfSingles | script.js:210-229 | when the first n rays each emit one move and the rest emit none, the result is exactly those moves, in table order |
| RuleFacts.OneMechanismPerKind | script.js:305-326 | kings and pawns have no rays, and the other kinds have no conditions |
| RuleFacts.AheadIsRowOffset | script.js:242-243 | the square `steps` ahead of a pawn is `steps · orient` rows up, in the same column |
| RuleFacts.PawnFront1Spec | script.js:241-251 | the one-step move exists exactly when the square ahead reads empty (also off the board), and it is a displacement there |
| RuleFacts.PawnFront2Spec | script.js:252-258 | the two-step move exists exactly when the one-step move exists and the square two ahead reads empty; `numMovesMadeByPiece` always answers 0, so `isUnmovedPiece` never blocks it |
| RuleFacts.PawnCaptureSpec | script.js:260-271 | a diagonal-forward move exists exactly when the square holds an opposing piece, and it is a capture |
| RuleFacts.KingMoveSpec | script.js:279-293 | a king step exists exactly when the square is on the board, not friendly and not under attack, and it is a capture exactly when the square is occupied |
| RuleFacts.HooksYieldNothing | script.js:273-296 | the en-passant, promotion and castling hooks never emit a move |
| RuleFacts.CapturesLandOnOpponents | script.js:189-229 | every capture that `legalMoves` emits lands on a piece of the opposing colour |
| RuleFacts.FreshAttackOnlyOnOwnPieces | script.js:109-122 | over an index in which every key holds a piece and every listed capture lands on a piece of the other colour than that key's (a "fresh" index), the attack query only reports squares that hold the mover's own pieces |
| RuleFacts.FreshIndexNeverBlocksKing | script.js:279-293 | over a fresh index, a king of the side to move has a step blocked only by the edge or a friendly piece |
| RuleFacts.KingNeverStepsOntoAttacked | script.js:279-293 | whatever the index, no king step listed lands on a square the attack query reports |
| RuleFacts.WalkIgnoresIndex | script.js:210-239 | a ray walk does not read the index |
| RuleFacts.RayMovesIgnoreIndex | script.js:210-229 | neither do the ray moves of a piece |
| RuleFacts.PawnConditionsIgnoreIndex | script.js:241-277 | conditions other than king steps do not read the index |
| RuleFacts.NonKingMovesIgnoreIndex | script.js:189-197 | the moves of a square that does not hold a king do not depend on the index |
| RuleFacts.RebuildOverNonKing | script.js:137-146 | after refreshing a run that includes a non-king piece, its entry is its move list on the current board |
| RuleFacts.RebuildNonKingEntry | script.js:136-147 | after a rebuild, the entry of every non-king piece is its move list on the current board |
| RuleFacts.RebuildOverFirst | script.js:137-146 | the first square of a run that is not visited again keeps the move list computed against the index before the run |
| RuleFacts.RebuildFirstSquare | script.js:136-147 | after a rebuild, an occupied (0,0) holds its move list computed against the index before the rebuild |
| RuleFacts.RebuildAgainSameEntry | script.js:136-147 | on a board without kings, a second rebuild keeps every entry |
| RuleFacts.RebuildIdempotentWithoutKings | script.js:136-147 | on a board without kings, rebuilding twice gives the same index as rebuilding once |
| RuleFacts.PawnNearFarEdgeNeverSelected | script.js:148-153 | after a rebuild, a pawn of the side to move whose square ahead is empty and whose one- or two-step square is off the board lists an off-board square, so highlighting it throws and it cannot be selected |
| RuleFacts.RebuildOverFromEmptyIsFresh | script.js:137-146 | refreshing any run of squares from an empty index gives a fresh index: every key holds a piece and every listed capture lands on an opposing piece |
| RuleFacts.InitialIndexIsFresh | script.js:70-71 | the index the game starts with is fresh: every key holds a piece and every listed capture lands on an opposing piece |
| RuleFacts.RebuildOverEntryFromEmpty | script.js:137-146 | from an empty index, each refreshed occupied square holds its move list computed against some fresh index on the same board |
| RuleFacts.InitialEntry | script.js:70-71 | every occupied square's initial entry is its move list over some fresh index on the starting board |
| Chess.Game.constructor | script.js:61-72 | white moves first with orientation +1 and nothing selected, the board is the description's, and the index is one rebuild from empty |
| Chess.Game.IsPositionUnderAttack | script.js:109-122 | the scan returns true exactly when some entry whose square does not hold a piece of the side to move lists a capture onto the position; empty squares are not skipped |
| Chess.Game.RefreshSquare | script.js:139-144 | one pass of the inner loop sets an occupied square's entry to its move list and changes nothing else |
| Chess.Game.RefreshRow | script.js:138-145 | the inner loop leaves the index equal to refreshing the row's squares from left to right, and changes nothing else |
| Chess.Game.UpdateLegalMoves | script.js:136-147 | the nested loops leave the index equal to `Rebuild` of the state before them, and change nothing else |
| Chess.Game.ToggleTurn | script.js:162-166 | the other colour moves, the orientation is negated, and nothing else changes |
| Chess.Game.MakeMove | script.js:161 | the board becomes the old board with the piece moved |
| Chess.Game.HighlightMoves | script.js:148-153 | highlighting completes exactly when every destination listed for the square is on the board; otherwise `highlightCell` finds no cell and throws |
| Chess.Game.PlayMove | script.js:98-101 | the piece moves, the other side moves with the orientation negated, the selection is cleared, and the index is rebuilt over the new board |
| Chess.Game.OnCellClick | script.js:73-103 | each click branch has a stated outcome; with nothing selected, a piece of the side to move is selected only when highlighting its destinations does not throw; the game invariant is kept; the board changes only when the selected square lists the clicked square as a destination |
| Chess.LegalMoves | script.js:189-197 | the returned list equals `MovesOf` |
| Chess.LegalMovesByCondition | script.js:199-208 | the loop collects the moves of the piece's conditions in table order |
| Chess.EvalCondition | script.js:202 | calling one table entry yields `ApplyCondition` |
| Chess.KingMoveCondition | script.js:279-293 | the king-step closure, with its live attack query, yields `KingMove` |
| Chess.LegalMovesByRay | script.js:210-229 | the moves of a piece's rays yield `ByRay` |
| Chess.WalkRays | script.js:212-227 | the loop over a list of rays appends their walks in order, giving `RayMoves` |
| Chess.WalkRay | script.js:210-239 | the walk along one ray, with its `break`s, yields `Walk` from step 1 |
| Scenarios.StartBoard | script.js:328-337 | the starting description is an 8 by 8 board stored as written |
| Scenarios.StartPawnConditions | script.js:311-314 | each pawn condition's result for the pawn at (6,4) on the starting board |
| Scenarios.StartPawnMoves | script.js:328-337 | the white pawn at (6,4) moves exactly to (5,4) and then (4,4), both displacements |
| Scenarios.StartKnightRays | script.js:321-324 | each knight ray's result for the knight at (7,1) |
| Scenarios.StartKnightMoves | script.js:321-337 | the white knight at (7,1) moves exactly to (5,0) and (5,2) |
| Scenarios.KingRookBoard | script.js:2-21 | the king-and-rook board is stored as written |
| Scenarios.KingConditions | script.js:306-310 | each king condition's result for the white king at (4,4), White to move, over any fresh index on that board |
| Scenarios.KingMovesOverFreshIndex | script.js:279-293 | over any fresh index on that board, the white king at (4,4), White to move, may step to all eight neighbours |
| Scenarios.KingBesideRookMayStepAlongTheRank | script.js:279-293 | starting a game with a king at (4,4) and an enemy rook at (4,0), the king's entry includes the step to (4,3) |
| Scenarios.KingKnightRookBoard | script.js:2-21 | the king, knight and rook board is stored as written |
| Scenarios.KingKnightRookSquares | script.js:123-135 | on that board (0,0) holds the black king, (1,1) the white knight, (1,2) nothing and (1,3) the black rook |
| Scenarios.KingCapturesKnightOverEmptyIndex | script.js:279-293 | over an empty index, a black king at (0,0) lists the capture of a white piece at (1,1) |
| Scenarios.KingStepListed | script.js:305-310 | the eighth king condition steps from (0,0) onto (1,1), and over an empty index yields a capture of an opposing piece there |
| Scenarios.RookCapturesKnight | script.js:210-229 | a black rook at (1,3) slides left over an empty (1,2) and lists the capture at (1,1) |
| Scenarios.KingStepDroppedOnceRookListed | script.js:109-122 | once the index lists that capture under the rook, the king's step onto (1,1) is not listed |
| Scenarios.RebuildNotIdempotentWithKings | script.js:136-147 | on that board, rebuilding twice from an empty index gives a different index than rebuilding once |
| Scenarios.LonePawnConditions | script.js:241-258 | on a one-square board, both forward squares of a pawn read as empty |
| Scenarios.LonePawnConditionMoves | script.js:241-258 | so both pawn steps are emitted |
| Scenarios.PawnStepsOffTheBoard | script.js:241-248 | pawn steps are not checked against the board's edge: a lone pawn lists two off-board displacements |
| Scenarios.LonePawnAtTheEdge | script.js:241-248 | the lone pawn's square ahead is off the board and reads as empty |
| Scenarios.LonePawnNeverSelected | script.js:80-82 | after a rebuild, clicking the lone pawn never selects it |
| Scenarios.StartIndexPawnEntry | script.js:61-72 | in the starting index, the pawn at (6,4) lists exactly (5,4) and (4,4) |
| Scenarios.StartSquares | script.js:328-337 | on the starting board, (6,4) holds a white pawn and (4,4) is empty |
| Scenarios.PawnEntrySelectable | script.js:80-82 | a white pawn at (6,4) listing (5,4) and (4,4) on an 8 by 8 board can be selected |
| Scenarios.OpeningEntry | script.js:61-72 | in the index the game starts with, the pawn at (6,4) lists exactly (5,4) and (4,4) |
| Scenarios.OpeningSquares | script.js:328-337 | in the starting state, (6,4) holds a white pawn and (4,4) is empty, both on the 8 by 8 board |
| Scenarios.OpeningPrerequisites | script.js:73-103 | in the starting state, the pawn at (6,4) can be selected and (4,4) is a legal destination for it |
| Scenarios.SelectThenPlay | script.js:73-103 | clicking a selectable piece and then a legal, unowned destination plays the move, hands over the turn and clears the selection |
| Scenarios.OpeningDoubleStep | script.js:73-103 | starting a game and clicking (6,4) then (4,4) moves the pawn, empties (6,4), gives black the move with orientation -1, and clears the selection |

## Left out

- **DOM rendering.** The `<table>` and `<td>` elements, the CSS classes the highlights add and remove, `clearHighlights` and the `vmin` sizing are presentation. The one effect of the highlights on the game is kept: `highlightCell` throws on a square without a cell, and `Chess.Game.HighlightMoves` reports that case so the click selects nothing.
- **Unicode and HTML maps.** The board stores symbols directly. A symbol the maps do not know reads back as empty, which `Boards.Normalize` models.
- **`Board.idOf` and `Board.positionOf`.** The index is keyed by position instead of by string id.
- **`event.target`.** `onCellClick` takes the clicked position directly.
- **`onefile.py`.** It only bundles files; it is file I/O with no logic.
- Boards.Board.constructor: rows of unequal length are excluded by `Rectangular`. The browser would draw ragged rows, but `isOnBoard` would still use the first row's width.
- **Insertion order of the JavaScript `Map`.** The model uses a Dafny map. The attack query's answer does not depend on the order in which entries are scanned.
- Chess.Game.OnCellClick: clicks are required to be on the board, because only cells of the table can be clicked.
- **Orientation.** It is kept at `+1` or `-1` (white exactly at `+1`) by the `Ready` invariant, not checked at each use.
- Rules.IsLegalDestination: requires the selected square to have an index entry. The source would crash on a missing entry. The `Valid` invariant guarantees the entry whenever the function is called.
- Scenarios.OpeningDoubleStep: states only the two squares involved, the side to move, the orientation and the selection. It does not state that the other 62 squares are unchanged, although `Chess.Game.OnCellClick` guarantees it in general through `Boards.Grid.Moved`.
- **Integer width.** JavaScript numbers are modelled as unbounded integers. Board coordinates stay far below 2^53, so no rounding arises.
