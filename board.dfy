/**
 * com.schumakerteam.tetris.gfx.Board as an object: the 220-cell grid is an
 * array updated in place and the piece, anchor, flags and counter are
 * fields. Every method is proved to leave exactly the state that the
 * matching function of BoardSpec gives for the state it started in.
 *
 * The Swing timer is the field `timerRunning`, the status label the field
 * `status`; the random int behind each new piece is the parameter `rnd`.
 */
module GameBoard {
  import opened Tetrominoes
  import opened BoardSpec

  class Board {
    const board: array<Tetromino>
    var curPiece: Piece
    var curX: int
    var curY: int
    var isStarted: bool
    var isPaused: bool
    var isFallingFinished: bool
    var numLinesRemoved: int
    var timerRunning: bool
    var status: Status

    function State(): Game
      reads this, board
    {
      Game(board[..], curPiece, curX, curY, isStarted, isPaused, isFallingFinished,
           numLinesRemoved, timerRunning, status)
    }

    /** The board invariant Inv, read off the fields. */
    ghost predicate Valid()
      reads this
      ensures Valid() ==> Inv(State())
    {
      board.Length == Cells && WellFormed(curPiece) && InGrid(curPiece, curX, curY)
    }

    /** The constructor: empty piece, timer started, grid cleared. */
    constructor ()
      ensures Valid() && fresh(board)
      ensures State() == Initial()
    {
      curPiece := WithShape(NoShape);
      timerRunning := true;
      status := Untouched;
      board := new Tetromino[Cells];
      curX, curY := 0, 0;
      isStarted, isPaused, isFallingFinished := false, false, false;
      numLinesRemoved := 0;
      new;
      ClearBoard();
    }

    /**
     * shapeAt(x, y): the cell at storage index y * 10 + x. Storage is row by
     * row, so for a column on the board this is cell x of row y, and a column
     * past the right edge reads the next row up.
     */
    function ShapeAt(x: int, y: int): (t: Tetromino)
      reads board
      requires 0 <= Index(x, y) < board.Length
      ensures 0 <= x < Width && board.Length == Cells ==> t == board[..][Index(0, y)..Index(0, y + 1)][x]
      ensures x >= Width ==> t == board[Index(x - Width, y + 1)]
    {
      board[Index(x, y)]
    }

    /** clearBoard(): every one of the 220 cells becomes NoShape. */
    method ClearBoard()
      requires board.Length == Cells
      modifies board
      ensures board[..] == EmptyGrid()
    {
      for i := 0 to Cells
        invariant forall n :: 0 <= n < i ==> board[n] == NoShape
      {
        board[i] := NoShape;
      }
      assert forall n :: 0 <= n < Cells ==> board[..][n] == EmptyGrid()[n];
    }

    /**
     * tryMove(p, newX, newY): succeeds exactly when every cell of `p`
     * anchored at (newX, newY) is on the board and empty; only then are
     * the piece and anchor replaced. The grid is never written.
     */
    method TryMove(p: Piece, newX: int, newY: int) returns (ok: bool)
      requires Valid() && WellFormed(p)
      modifies this
      ensures Valid()
      ensures ok == Fits(board[..], p, newX, newY)
      ensures !ok ==> unchanged(this)
      ensures State() == Moved(old(State()), p, newX, newY)
    {
      for i := 0 to 4
        invariant forall k :: 0 <= k < i ==>
          InBounds(newX + p.coords[k].0, newY - p.coords[k].1)
          && board[CellIndex(p, newX, newY, k)] == NoShape
      {
        var x := newX + p.coords[i].0;
        var y := newY - p.coords[i].1;
        if x < 0 || x >= Width || y < 0 || y >= Height {
          return false;
        }
        if ShapeAt(x, y) != NoShape {
          return false;
        }
      }
      curPiece := p;
      curX := newX;
      curY := newY;
      return true;
    }

    /**
     * newPiece(): take a random shape, anchor it at (6, 21 + minY()) and
     * try that position; if it is blocked, the game is over. For
     * rnd == MIN_VALUE the shape lookup throws and nothing changes.
     */
    method NewPiece(rnd: Int32) returns (threw: bool)
      requires Valid()
      modifies this
      ensures Valid()
      ensures State() == Spawn(old(State()), rnd).next
      ensures threw == Spawn(old(State()), rnd).threw
    {
      var next := RandomShape(rnd);
      if next.None? {
        return true;
      }
      SpawnInGrid(next.value);
      PlaceNewPiece(next.value);
      threw := false;
    }

    /** newPiece() once the shape is chosen: anchor at (6, 21 + minY()) and try it; blocked means game over. */
    method PlaceNewPiece(p: Piece)
      requires Valid() && p.shape != NoShape && WellFormed(p) && InGrid(p, 6, SpawnY(p))
      modifies this
      ensures Valid()
      ensures State() == SpawnAt(old(State()), p)
    {
      ghost var s1 := State().(piece := p, curX := 6, curY := SpawnY(p));
      curPiece := p;
      curX := 6;
      var lowest := MinY(curPiece);
      curY := Height - 1 + lowest;
      assert State() == s1;
      var ok := TryMove(curPiece, curX, curY);
      assert ok == Fits(s1.grid, p, 6, SpawnY(p));
      if !ok {
        GameOver();
      }
    }

    /** The blocked-spawn branch of newPiece(): empty the piece, stop the timer, end the game. */
    method GameOver()
      requires Valid()
      modifies this
      ensures Valid()
      ensures State() == old(State()).(piece := WithShape(NoShape), timerRunning := false,
                                       started := false, status := GameOverText)
    {
      PivotInBounds(curPiece, curX, curY);
      curPiece := WithShape(NoShape);
      timerRunning := false;
      isStarted := false;
      status := GameOverText;
    }

    /** The inner test of removeFullLines: is every column of row i occupied? */
    method IsLineFull(i: int) returns (full: bool)
      requires board.Length == Cells && 0 <= i < Height
      ensures full == RowFull(board[..], i)
    {
      full := true;
      for j := 0 to Width
        invariant forall k :: 0 <= k < j ==> board[Index(k, i)] != NoShape
      {
        if ShapeAt(j, i) == NoShape {
          full := false;
          break;
        }
      }
    }

    /** The shift of removeFullLines for a full row i: rows i..20 each take the row above. */
    method ShiftRowsDown(i: int)
      requires board.Length == Cells && 0 <= i < Height
      modifies board
      ensures board[..] == ShiftDown(old(board[..]), i)
    {
      ghost var g := board[..];
      for k := i to Height - 1
        invariant forall n :: i * 10 <= n < k * 10 ==> board[n] == g[n + 10]
        invariant forall n :: 0 <= n < i * 10 || k * 10 <= n < Cells ==> board[n] == g[n]
      {
        for j := 0 to Width
          invariant forall n :: i * 10 <= n < k * 10 + j ==> board[n] == g[n + 10]
          invariant forall n :: 0 <= n < i * 10 || k * 10 + j <= n < Cells ==> board[n] == g[n]
        {
          board[Index(j, k)] := ShapeAt(j, k + 1);
        }
      }
      assert forall n :: 0 <= n < Cells ==> board[..][n] == ShiftDown(g, i)[n];
    }

    /**
     * removeFullLines(): scan rows 21 down to 0, shifting down above each
     * full row; if any row was full, add the count to the counter and the
     * status bar, set isFallingFinished and empty the current piece.
     */
    method RemoveFullLines()
      requires Valid()
      modifies this, board
      ensures Valid()
      ensures State() == Cleared(old(State()))
    {
      ghost var g0 := board[..];
      var numFullLines := 0;
      var i := Height - 1;
      while i >= 0
        modifies board
        invariant -1 <= i < Height
        invariant Scan(board[..], i).grid == Scan(g0, Height - 1).grid
        invariant numFullLines + Scan(board[..], i).count == Scan(g0, Height - 1).count
      {
        var lineIsFull := IsLineFull(i);
        if lineIsFull {
          numFullLines := numFullLines + 1;
          ShiftRowsDown(i);
        }
        i := i - 1;
      }
      if numFullLines > 0 {
        numLinesRemoved := numLinesRemoved + numFullLines;
        status := Lines(numLinesRemoved);
        isFallingFinished := true;
        curPiece := WithShape(NoShape);
      } else {
        ScanWithoutCountIsIdentity(g0, Height - 1);
      }
    }

    /**
     * pieceDropped(): write the current shape into the piece's four cells,
     * remove full lines, and spawn the next piece unless a line was removed.
     */
    method PieceDropped(rnd: Int32)
      requires Valid()
      modifies this, board
      ensures Valid()
      ensures State() == Dropped(old(State()), rnd)
    {
      ghost var g0 := board[..];
      for i := 0 to 4
        modifies board
        invariant board[..] == Stamp(g0, curPiece, curX, curY, i)
      {
        var x := curX + curPiece.coords[i].0;
        var y := curY - curPiece.coords[i].1;
        board[Index(x, y)] := curPiece.shape;
      }
      RemoveFullLines();
      if !isFallingFinished {
        var _ := NewPiece(rnd);
      }
    }

    /** oneLineDown(): one row down, or lock the piece where it is. */
    method OneLineDown(rnd: Int32)
      requires Valid()
      modifies this, board
      ensures Valid()
      ensures State() == BoardSpec.OneLineDown(old(State()), rnd)
    {
      ghost var s0 := State();
      var ok := TryMove(curPiece, curX, curY - 1);
      if ok {
        StepDownFits(s0, rnd);
      } else {
        StepDownBlocked(s0, rnd);
        PieceDropped(rnd);
      }
    }

    /** dropDown(): run the descent loop, then lock the piece once where it stopped. */
    method DropDown(rnd: Int32)
      requires Valid()
      modifies this, board
      ensures Valid()
      ensures State() == DroppedHard(old(State()), rnd)
    {
      HardDropLocksAtDropRow(State(), rnd);
      Descend();
      PieceDropped(rnd);
    }

    /**
     * The loop of dropDown(): while above row 0, tryMove one row down and
     * stop at the first refusal. Each accepted step commits the anchor, so
     * the loop ends with the piece at DropRow and nothing else changed.
     */
    method Descend()
      requires Valid()
      modifies this
      ensures Valid()
      ensures State() == old(State()).(curY := DropRow(old(board[..]), old(curPiece), old(curX), old(curY)))
    {
      ghost var s0 := State();
      PivotInBounds(curPiece, curX, curY);
      var newY := curY;
      while newY > 0
        invariant Valid() && newY >= 0
        invariant State() == s0.(curY := newY)
        invariant DropRow(s0.grid, s0.piece, s0.curX, s0.curY) == DropRow(s0.grid, s0.piece, s0.curX, newY)
        decreases newY
      {
        var ok := TryMove(curPiece, curX, newY - 1);
        DescentStep(s0.grid, s0.piece, s0.curX, newY);
        if !ok {
          break;
        }
        newY := newY - 1;
      }
      DescentStep(s0.grid, s0.piece, s0.curX, newY);
    }

    /**
     * start(): ignored while paused; otherwise reset the flags, the counter
     * and the grid, show 0, spawn the first piece and start the timer.
     */
    method Start(rnd: Int32)
      requires Valid()
      modifies this, board
      ensures Valid()
      ensures State() == Started(old(State()), rnd)
    {
      if isPaused {
        return;
      }
      ghost var s1 := State().(started := true, fallingFinished := false, linesRemoved := 0,
                               grid := EmptyGrid(), status := Lines(0));
      isStarted := true;
      isFallingFinished := false;
      numLinesRemoved := 0;
      ClearBoard();
      status := Lines(numLinesRemoved);
      assert State() == s1;
      var threw := NewPiece(rnd);
      ghost var sp := Spawn(s1, rnd);
      assert State() == sp.next && threw == sp.threw;
      if !threw {
        timerRunning := true;
      }
    }

    /** pause(): ignored unless started; otherwise toggle pausing, the timer and the status text. */
    method Pause()
      requires Valid()
      modifies this
      ensures Valid()
      ensures State() == Paused(old(State()))
    {
      if !isStarted {
        return;
      }
      isPaused := !isPaused;
      if isPaused {
        timerRunning := false;
        status := PausedText;
      } else {
        timerRunning := true;
        status := Lines(numLinesRemoved);
      }
    }

    /** actionPerformed(): the timer tick. */
    method ActionPerformed(rnd: Int32)
      requires Valid()
      modifies this, board
      ensures Valid()
      ensures State() == Tick(old(State()), rnd)
    {
      if isFallingFinished {
        isFallingFinished := false;
        var _ := NewPiece(rnd);
      } else {
        OneLineDown(rnd);
      }
    }

    /** InputAdapter.keyPressed(code): the key dispatch. */
    method KeyPressed(code: int, rnd: Int32)
      requires Valid()
      modifies this, board
      ensures Valid()
      ensures State() == BoardSpec.KeyPressed(old(State()), code, rnd)
    {
      if code == KeyR {
        Start(rnd);
      }
      if !isStarted || curPiece.shape == NoShape {
        return;
      }
      if code == KeyP {
        Pause();
        return;
      }
      if isPaused {
        return;
      }
      Play(code, rnd);
    }

    /** The switch of keyPressed, reached when started, with a live piece, not paused. */
    method Play(code: int, rnd: Int32)
      requires Valid()
      modifies this, board
      ensures Valid()
      ensures State() == BoardSpec.Play(old(State()), code, rnd)
    {
      RotationKeepsWellFormed(curPiece);
      if code == KeyLeft {
        var _ := TryMove(curPiece, curX - 1, curY);
      } else if code == KeyRight {
        var _ := TryMove(curPiece, curX + 1, curY);
      } else if code == KeyDown {
        var turned := RotateRight(curPiece);
        var _ := TryMove(turned, curX, curY);
      } else if code == KeyUp {
        var turned := RotateLeft(curPiece);
        var _ := TryMove(turned, curX, curY);
      } else if code == KeySpace {
        DropDown(rnd);
      } else if code == KeyD {
        OneLineDown(rnd);
      }
    }
  }
}
