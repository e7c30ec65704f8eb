# Tetris engine model

A Dafny model of the game engine of the SchumakerTeam Tetris clone: the
tetromino geometry of `Piece` and the board logic of `Board` (collision,
locking, line clearing, spawning, gravity, hard drop, start/pause and the
key dispatch).

- `pieces.dfy`, module `Tetrominoes` (`Piece.java`): the eight-value shape
  enum, the fixed offset table copied by `setShape`, the `minX`/`minY`
  accumulator loops, the two rotation loops and the index arithmetic of
  `setRandomShape` (Java's `Math.abs` and truncating `%` written out). A
  piece is a value: the board is the only long-lived holder of its piece,
  so replacing the value is the same as mutating the object.
- `board_spec.dfy`, module `BoardSpec`: the board as a value (`Game`) and,
  per operation, a function giving the state the operation leaves. The
  lemmas here state the game's properties.
- `board.dfy`, module `GameBoard`: class `Board`, with the 220-cell grid as
  an array updated in place (index `y * 10 + x`) and the piece, anchor,
  flags and counter as fields. Every method is proved to end in exactly
  the state the matching `BoardSpec` function gives, and to keep the board
  invariant (the current piece lies on the board).

Collaborators become data: the Swing timer is the boolean `timerRunning`
(set by the constructor, `start`, `pause` and game over), the status label
is the last text written (`Status`), the random int behind each new piece
is a parameter `rnd`, and a key event is its key code.

Behaviour kept as the code has it:

- `removeFullLines` decrements its row index after a shift, so the row
  shifted into place is not examined again. Because every row is
  examined with its original contents, the count equals the number of rows
  that were full (`ScanCountsOriginalFullRows`), and when the top row is not
  full no full row remains (`ScanLeavesNoFullRow`).
- Row 21 is never emptied: the shift copies rows down but leaves the top row
  as it was, so a full top row is counted on every clear and stays full
  (`FullTopRowIsCountedButKept`).
- `newPiece` sets the spawn anchor before testing it, so a blocked spawn keeps
  the anchor (`BlockedSpawnIsGameOver`).
- For `nextInt() == Integer.MIN_VALUE`, `Math.abs(r) % 7 + 1` is -1 and the
  shape lookup throws; nothing of the piece changes, and in `start` the
  timer is then not restarted (`RandomIndex`, `Spawn`, `Started`). In every
  other caller the spawn is the last step, so the throw stops nothing
  else.
- `Playable`: between events, a live piece never overlaps a settled cell,
  and no piece is live while `isFallingFinished` is set. Every tick and
  key event keeps this, except when the random int is MIN_VALUE
  (`ThrowingSpawnLeavesLockedPieceLive`).
- The constructor starts the timer before `start` is called, so the first
  tick locks the empty piece and spawns a real one while the game is not
  started (`FirstTickSpawnsBeforeStart`).

## Model

| member | source | states |
|---|---|---|
| `Tetrominoes.ValueAt` | src/com/schumakerteam/tetris/gfx/Piece.java:38-43 | `values()[i]` exists exactly for 0..7 and has ordinal `i` |
| `Tetrominoes.Table` | src/com/schumakerteam/tetris/gfx/Piece.java:51-59 | each row has four offsets including the pivot; NoShape's are all (0, 0), every real shape has four distinct cells; offsets lie in -1..1 horizontally and -1..2 vertically |
| `Tetrominoes.WithShape` | src/com/schumakerteam/tetris/gfx/Piece.java:50-65 | setShape gives the tagged piece with four offsets including the pivot; NoShape has all offsets (0, 0) |
| `Tetrominoes.MinOfIsLeast` | src/com/schumakerteam/tetris/gfx/Piece.java:94-108 | the folded minimum is below every element and is one of them |
| `Tetrominoes.MinX` | src/com/schumakerteam/tetris/gfx/Piece.java:94-100 | the accumulator loop returns the minimum of the x offsets |
| `Tetrominoes.MinY` | src/com/schumakerteam/tetris/gfx/Piece.java:102-108 | the accumulator loop returns the minimum of the y offsets |
| `Tetrominoes.MinimaAreAttained` | src/com/schumakerteam/tetris/gfx/Piece.java:94-108 | minX/minY are at most every offset and equal to one of them |
| `Tetrominoes.RotatedLeft` | src/com/schumakerteam/tetris/gfx/Piece.java:110-122 | the left turn keeps the tag and four offsets |
| `Tetrominoes.RotatedRight` | src/com/schumakerteam/tetris/gfx/Piece.java:124-136 | the right turn keeps the tag and four offsets |
| `Tetrominoes.RotationsKeepDistances` | src/com/schumakerteam/tetris/gfx/Piece.java:110-136 | both turns return a square as it is and keep every cell's squared distance from the pivot |
| `Tetrominoes.RotateLeft` | src/com/schumakerteam/tetris/gfx/Piece.java:110-122 | square returned unchanged; otherwise same tag and each (x, y) becomes (y, -x) |
| `Tetrominoes.RotateRight` | src/com/schumakerteam/tetris/gfx/Piece.java:124-136 | square returned unchanged; otherwise same tag and each (x, y) becomes (-y, x) |
| `Tetrominoes.RotationKeepsWellFormed` | src/com/schumakerteam/tetris/gfx/Piece.java:110-136 | both turns keep four offsets and the pivot |
| `Tetrominoes.RotationsAreInverse` | src/com/schumakerteam/tetris/gfx/Piece.java:110-136 | a right turn undoes a left turn and vice versa |
| `Tetrominoes.FourLeftTurnsAreIdentity` | src/com/schumakerteam/tetris/gfx/Piece.java:110-122 | four left turns restore the original offsets |
| `Tetrominoes.JavaAbs` | src/com/schumakerteam/tetris/gfx/Piece.java:89 | `Math.abs` is non-negative and equals the argument or its negation, except for MIN_VALUE, which it returns unchanged and negative |
| `Tetrominoes.JavaRem` | src/com/schumakerteam/tetris/gfx/Piece.java:89 | `%` with a positive divisor stays within the divisor's magnitude and takes the dividend's sign |
| `Tetrominoes.RandomIndex` | src/com/schumakerteam/tetris/gfx/Piece.java:87-89 | the index is in 1..7 for every int but MIN_VALUE, for which it is -1 |
| `Tetrominoes.RandomShape` | src/com/schumakerteam/tetris/gfx/Piece.java:87-92 | setRandomShape never picks NoShape and fails only for MIN_VALUE |
| `BoardSpec.Initial` | src/com/schumakerteam/tetris/gfx/Board.java:57-67 | the constructed board satisfies the invariant and `Playable`, is not started and has its timer running |
| `BoardSpec.Moved` | src/com/schumakerteam/tetris/gfx/Board.java:188-204 | tryMove keeps the current piece on the board |
| `BoardSpec.FitsMeansFreeCells` | src/com/schumakerteam/tetris/gfx/Board.java:189-198 | tryMove's test holds exactly when the piece is on the board and every storage cell it covers is empty; then the anchor cell itself is on the board and empty |
| `BoardSpec.StampWritesExactlyPieceCells` | src/com/schumakerteam/tetris/gfx/Board.java:164-169 | locking writes the shape into exactly the piece's four cells and no other cell |
| `BoardSpec.RowFullIsGaplessSlice` | src/com/schumakerteam/tetris/gfx/Board.java:209-215 | the row test holds exactly when the row's ten consecutive storage cells contain no NoShape |
| `BoardSpec.ShiftDownMovesRows` | src/com/schumakerteam/tetris/gfx/Board.java:218-222 | after a shift at i, row r in i..20 is full exactly when row r + 1 was |
| `BoardSpec.RowBelowFullWhenAboveFull` | src/com/schumakerteam/tetris/gfx/Board.java:218-222 | when row r + 1 was full, row r is full after it is copied down |
| `BoardSpec.RowAboveFullWhenBelowFull` | src/com/schumakerteam/tetris/gfx/Board.java:218-222 | when row r is full after the copy, row r + 1 was full |
| `BoardSpec.ShiftDownKeepsLowRows` | src/com/schumakerteam/tetris/gfx/Board.java:218-222 | a shift at i leaves every row below i where it was, with the same fullness |
| `BoardSpec.ShiftDownLandsRow` | src/com/schumakerteam/tetris/gfx/Board.java:218-222 | a shift at i moves every row above i one row down |
| `BoardSpec.CountFullAtMostRows` | src/com/schumakerteam/tetris/gfx/Board.java:206-224 | at most i + 1 of rows 0..i are full |
| `BoardSpec.ScanStepPastOpenRow` | src/com/schumakerteam/tetris/gfx/Board.java:208-216 | the scan passes a row that is not full without changing the grid or the count |
| `BoardSpec.ScanStepPastFullRow` | src/com/schumakerteam/tetris/gfx/Board.java:216-224 | at a full row the scan shifts the rows above down and goes on with the next lower row, counting that row once |
| `BoardSpec.ScanMovesRowAbove` | src/com/schumakerteam/tetris/gfx/Board.java:206-224 | a row above the scanned range ends up lower by the number of full rows in the range |
| `BoardSpec.ScanKeepsSurvivingRows` | src/com/schumakerteam/tetris/gfx/Board.java:206-224 | a row r that is not full ends up at row r minus the number of full rows below it, with its contents intact |
| `BoardSpec.SurvivingRowPastFullRow` | src/com/schumakerteam/tetris/gfx/Board.java:216-224 | the same, at the step where the scan meets a full row above r |
| `BoardSpec.RowLandsOnTrans` | src/com/schumakerteam/tetris/gfx/Board.java:218-222 | two row moves compose |
| `BoardSpec.ScanCountsOriginalFullRows` | src/com/schumakerteam/tetris/gfx/Board.java:206-224 | the number of full lines found is the number of rows full before the scan |
| `BoardSpec.ScanWithoutCountIsIdentity` | src/com/schumakerteam/tetris/gfx/Board.java:206-224 | a scan that finds no full row leaves the grid unchanged |
| `BoardSpec.ScanKeepsTopRow` | src/com/schumakerteam/tetris/gfx/Board.java:216-223 | row 21 is never changed by the scan |
| `BoardSpec.ScanLeavesNoFullRow` | src/com/schumakerteam/tetris/gfx/Board.java:206-224 | with row 21 not full, no row is full after the scan, despite no re-check |
| `BoardSpec.FullTopRowIsCountedButKept` | src/com/schumakerteam/tetris/gfx/Board.java:216-223 | a full row 21 is counted and is still full afterwards |
| `BoardSpec.Cleared` | src/com/schumakerteam/tetris/gfx/Board.java:225-231 | removeFullLines keeps the board invariant (the emptied piece sits at the old pivot) |
| `BoardSpec.ClearingCountsFullRows` | src/com/schumakerteam/tetris/gfx/Board.java:206-232 | the counter rises by the number of full rows; with none nothing changes; otherwise isFallingFinished is set and the piece is NoShape |
| `BoardSpec.ClearingKeepsSurvivingRows` | src/com/schumakerteam/tetris/gfx/Board.java:206-232 | after removeFullLines, every row that was not full sits at its old row minus the number of full rows below it |
| `BoardSpec.ClearingIsIdempotent` | src/com/schumakerteam/tetris/gfx/Board.java:206-232 | with row 21 not full, a second clear right after the first changes nothing |
| `BoardSpec.SpawnTouchesTopRow` | src/com/schumakerteam/tetris/gfx/Board.java:179 | anchored at 21 + minY, no cell of the piece is above row 21 and one is on it |
| `BoardSpec.SpawnCells` | src/com/schumakerteam/tetris/gfx/Board.java:176-180 | a spawned non-empty shape covers columns 5..7 and rows 18..21 |
| `BoardSpec.SpawnInGrid` | src/com/schumakerteam/tetris/gfx/Board.java:176-180 | the spawn anchor (6, 21 + minY) puts every cell on the board |
| `BoardSpec.Spawn` | src/com/schumakerteam/tetris/gfx/Board.java:176-186 | newPiece throws exactly for MIN_VALUE and then changes nothing; otherwise curX is 6, the grid is untouched, and an emptied piece means the game stopped |
| `BoardSpec.SpawnAt` | src/com/schumakerteam/tetris/gfx/Board.java:178-186 | anchor is (6, 21 + minY) whether or not the spawn fits; a NoShape result means not started and timer stopped |
| `BoardSpec.SpawnOnEmptyGridFits` | src/com/schumakerteam/tetris/gfx/Board.java:176-186 | on an empty grid the spawn succeeds and the game goes on |
| `BoardSpec.BlockedSpawnIsGameOver` | src/com/schumakerteam/tetris/gfx/Board.java:180-185 | a blocked spawn empties the piece, stops timer and game, shows game over, keeps the anchor |
| `BoardSpec.Dropped` | src/com/schumakerteam/tetris/gfx/Board.java:164-174 | pieceDropped keeps the board invariant |
| `BoardSpec.OneLineDown` | src/com/schumakerteam/tetris/gfx/Board.java:152-156 | oneLineDown keeps the board invariant |
| `BoardSpec.StepDownFits` | src/com/schumakerteam/tetris/gfx/Board.java:152-156 | when one row lower fits, oneLineDown is that tryMove |
| `BoardSpec.StepDownBlocked` | src/com/schumakerteam/tetris/gfx/Board.java:152-156 | when one row lower is blocked, oneLineDown is pieceDropped in place |
| `BoardSpec.DropRowIsLowestReachable` | src/com/schumakerteam/tetris/gfx/Board.java:144-148 | the drop loop stops at a row in 0..curY that is on the board, fits or is curY itself, and from which one row lower does not fit |
| `BoardSpec.DescentStep` | src/com/schumakerteam/tetris/gfx/Board.java:145-148 | each pass of the drop loop either goes on from one row lower (which fits) or stops at the current row |
| `BoardSpec.HardDropLocksAtDropRow` | src/com/schumakerteam/tetris/gfx/Board.java:144-150 | dropDown is pieceDropped with the anchor at the row the loop stops at, which is on the board |
| `BoardSpec.DroppedHard` | src/com/schumakerteam/tetris/gfx/Board.java:144-150 | dropDown keeps the board invariant |
| `BoardSpec.HardDropReachesFloorOnEmptyGrid` | src/com/schumakerteam/tetris/gfx/Board.java:144-150 | on an empty grid the hard drop brings the piece's lowest cell to row 0 |
| `BoardSpec.Started` | src/com/schumakerteam/tetris/gfx/Board.java:91-103 | start keeps the invariant and changes nothing while paused |
| `BoardSpec.StartBeginsFreshGame` | src/com/schumakerteam/tetris/gfx/Board.java:91-103 | otherwise: started, not falling-finished, 0 lines, empty grid, timer on, live piece, status "0" |
| `BoardSpec.Paused` | src/com/schumakerteam/tetris/gfx/Board.java:105-118 | pause changes nothing unless started; otherwise flips isPaused and runs the timer exactly when not paused |
| `BoardSpec.PauseTwiceRestores` | src/com/schumakerteam/tetris/gfx/Board.java:105-118 | pausing and resuming a running game restores its state |
| `BoardSpec.Tick` | src/com/schumakerteam/tetris/gfx/Board.java:70-77 | the tick keeps the board invariant |
| `BoardSpec.FirstTickSpawnsBeforeStart` | src/com/schumakerteam/tetris/gfx/Board.java:57-77 | the first tick after construction spawns a live piece while the game stays not started |
| `BoardSpec.KeyPressed` | src/com/schumakerteam/tetris/gfx/Board.java:266-284 | key handling keeps the board invariant |
| `BoardSpec.Play` | src/com/schumakerteam/tetris/gfx/Board.java:285-304 | the move/rotate/drop switch keeps the board invariant |
| `BoardSpec.KeysIgnoredWhenNotPlaying` | src/com/schumakerteam/tetris/gfx/Board.java:268-274 | any key but R is ignored when not started or when the piece is NoShape |
| `BoardSpec.PausedGameIgnoresMoves` | src/com/schumakerteam/tetris/gfx/Board.java:268-283 | while paused every key but P leaves the state as it was |
| `BoardSpec.SpawnKeepsPlayable` | src/com/schumakerteam/tetris/gfx/Board.java:176-186 | a spawn that does not throw leaves a live piece on empty cells or no live piece |
| `BoardSpec.DroppedKeepsPlayable` | src/com/schumakerteam/tetris/gfx/Board.java:164-174 | locking, clearing and respawning keep the falling piece off settled cells |
| `BoardSpec.OneLineDownKeepsPlayable` | src/com/schumakerteam/tetris/gfx/Board.java:152-156 | the one-row fall keeps `Playable` |
| `BoardSpec.HardDropKeepsPlayable` | src/com/schumakerteam/tetris/gfx/Board.java:144-150 | the hard drop keeps `Playable` |
| `BoardSpec.TickKeepsPlayable` | src/com/schumakerteam/tetris/gfx/Board.java:70-77 | every timer tick keeps `Playable` |
| `BoardSpec.StartKeepsPlayable` | src/com/schumakerteam/tetris/gfx/Board.java:91-103 | start keeps `Playable`, even when its spawn throws |
| `BoardSpec.MovedKeepsPlayable` | src/com/schumakerteam/tetris/gfx/Board.java:188-204 | tryMove commits only a position whose cells are free |
| `BoardSpec.PlayKeepsPlayable` | src/com/schumakerteam/tetris/gfx/Board.java:285-304 | every key of the switch keeps `Playable` |
| `BoardSpec.MoveKeysKeepPlayable` | src/com/schumakerteam/tetris/gfx/Board.java:285-297 | the arrow keys keep `Playable` |
| `BoardSpec.ShiftKeysKeepPlayable` | src/com/schumakerteam/tetris/gfx/Board.java:286-291 | left and right keep `Playable` |
| `BoardSpec.ShiftKeysMove` | src/com/schumakerteam/tetris/gfx/Board.java:286-291 | left and right are tryMove one column over, with the same piece and row |
| `BoardSpec.TurnKeysKeepPlayable` | src/com/schumakerteam/tetris/gfx/Board.java:292-297 | the two rotations keep `Playable` |
| `BoardSpec.DropKeysKeepPlayable` | src/com/schumakerteam/tetris/gfx/Board.java:298-303 | space and D keep `Playable` |
| `BoardSpec.SpaceKeyKeepsPlayable` | src/com/schumakerteam/tetris/gfx/Board.java:298-300 | space keeps `Playable` |
| `BoardSpec.DKeyKeepsPlayable` | src/com/schumakerteam/tetris/gfx/Board.java:301-303 | D keeps `Playable` |
| `BoardSpec.KeyPressedKeepsPlayable` | src/com/schumakerteam/tetris/gfx/Board.java:266-284 | every key event keeps `Playable` |
| `BoardSpec.ThrowingSpawnLeavesLockedPieceLive` | src/com/schumakerteam/tetris/gfx/Board.java:164-186 | when the spawn after a lock throws, the locked piece stays live over its own cells, so `Playable` breaks |
| `GameBoard.Board.constructor` | src/com/schumakerteam/tetris/gfx/Board.java:57-67 | the new board is the initial state: empty grid, NoShape piece at (0, 0), timer started |
| `GameBoard.Board.ShapeAt` | src/com/schumakerteam/tetris/gfx/Board.java:87-89 | storage is row by row: a column on the board reads cell x of row y, and a column past the right edge reads the next row up |
| `GameBoard.Board.ClearBoard` | src/com/schumakerteam/tetris/gfx/Board.java:158-162 | all 220 cells become NoShape |
| `GameBoard.Board.TryMove` | src/com/schumakerteam/tetris/gfx/Board.java:188-204 | returns whether every target cell is on the board and empty; on false no field changes, on true piece and anchor are the arguments; the grid is never written |
| `GameBoard.Board.NewPiece` | src/com/schumakerteam/tetris/gfx/Board.java:176-186 | ends in the state `Spawn` gives and reports the MIN_VALUE throw |
| `GameBoard.Board.PlaceNewPiece` | src/com/schumakerteam/tetris/gfx/Board.java:178-185 | anchors the chosen piece at (6, 21 + minY) and tries it, ending in the state `SpawnAt` gives |
| `GameBoard.Board.GameOver` | src/com/schumakerteam/tetris/gfx/Board.java:181-184 | piece NoShape, timer stopped, not started, game-over text; nothing else changes |
| `GameBoard.Board.IsLineFull` | src/com/schumakerteam/tetris/gfx/Board.java:209-215 | true exactly when all ten cells of the row are occupied |
| `GameBoard.Board.ShiftRowsDown` | src/com/schumakerteam/tetris/gfx/Board.java:218-222 | rows i..20 take the old contents of the row above; row 21 and rows below i keep theirs |
| `GameBoard.Board.RemoveFullLines` | src/com/schumakerteam/tetris/gfx/Board.java:206-232 | ends in the state `Cleared` gives: the scanned grid and the raised counter |
| `GameBoard.Board.PieceDropped` | src/com/schumakerteam/tetris/gfx/Board.java:164-174 | writes the piece, clears lines, spawns unless a line was cleared (`Dropped`) |
| `GameBoard.Board.OneLineDown` | src/com/schumakerteam/tetris/gfx/Board.java:152-156 | one row down if it fits, otherwise lock |
| `GameBoard.Board.DropDown` | src/com/schumakerteam/tetris/gfx/Board.java:144-150 | descends, then locks once, ending in the state `DroppedHard` gives |
| `GameBoard.Board.Descend` | src/com/schumakerteam/tetris/gfx/Board.java:145-148 | the loop terminates (newY decreases and stays >= 0) with the anchor at `DropRow` and nothing else changed |
| `GameBoard.Board.Start` | src/com/schumakerteam/tetris/gfx/Board.java:91-103 | ends in the state `Started` gives |
| `GameBoard.Board.Pause` | src/com/schumakerteam/tetris/gfx/Board.java:105-118 | ends in the state `Paused` gives |
| `GameBoard.Board.ActionPerformed` | src/com/schumakerteam/tetris/gfx/Board.java:70-77 | spawn when falling finished, otherwise one line down (`Tick`) |
| `GameBoard.Board.KeyPressed` | src/com/schumakerteam/tetris/gfx/Board.java:266-284 | R restarts, then the guards on started, NoShape, P and paused (`KeyPressed`) |
| `GameBoard.Board.Play` | src/com/schumakerteam/tetris/gfx/Board.java:285-304 | 37 left, 39 right, 40 rotate right, 38 rotate left, 32 hard drop, 68 one line down |

## Left out

- Rendering (`paint`, `drawSquare`, `squareWidth`, `squareHeight`) and every `repaint()` call: pixel drawing with no game state.
- The Swing timer's scheduling and the 400 ms interval: only whether it runs is kept; ticks arrive as calls to `ActionPerformed`.
- `java.util.Random`: the drawn int is the parameter `rnd`; the uniform distribution is not modelled.
- The status label is kept as which text was last written, not as the characters of the text.
- The exception thrown for MIN_VALUE leaves the listener and is dropped by Swing; the model only records that the rest of the handler does not run.
- `KeyEvent` capture and `addKeyListener`/`setFocusable` and the `Game` parent wiring: keys arrive as integer codes.
- `numLinesRemoved` is an unbounded integer; the 32-bit wrap-around after 2^31 cleared lines is not modelled.
- `x(i)`/`y(i)` are read as `coords[i]`; every caller passes 0..3, so their out-of-range failure is not modelled, nor is `shapeAt` with an index outside 0..219, which no caller produces.
- `setX`/`setY` appear only inside the rotation loops, where they are the sequence updates of `RotateLeft`/`RotateRight`.
- Aliasing of the piece object: a piece is a value, so the in-place `setShape`/`setRandomShape` become replacement of the board's piece.
