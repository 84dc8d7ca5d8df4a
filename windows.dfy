/**
  Windows: runs of `inarow` consecutive cells along one of four directions,
  the unit both of win detection (check_winning_move) and of the heuristic
  (check_window, count_windows).
*/
module Windows {
  import opened Board

  /**
    The four families scanned, in the order the source scans them.
    PositiveDiagonal runs down and to the right (rows and columns grow),
    NegativeDiagonal up and to the right (rows shrink as columns grow).
  */
  datatype Direction = Horizontal | Vertical | PositiveDiagonal | NegativeDiagonal

  /** The start rows of a family are FirstRow <= r < EndRow. */
  function FirstRow(cfg: Config, d: Direction): int {
    if d == NegativeDiagonal then cfg.inarow - 1 else 0
  }

  function EndRow(cfg: Config, d: Direction): int {
    if d == Horizontal || d == NegativeDiagonal then cfg.rows else cfg.rows - (cfg.inarow - 1)
  }

  /** The start columns of a family are 0 <= c < EndCol. */
  function EndCol(cfg: Config, d: Direction): int {
    if d == Vertical then cfg.columns else cfg.columns - (cfg.inarow - 1)
  }

  /** (r, c) is one of the start cells the source's loops visit for family d. */
  predicate IsStart(cfg: Config, d: Direction, r: int, c: int) {
    FirstRow(cfg, d) <= r < EndRow(cfg, d) && 0 <= c < EndCol(cfg, d)
  }

  /** Row of the k-th cell of the window of family d that starts in row r. */
  function CellRow(d: Direction, r: int, k: int): int {
    match d
    case Horizontal => r
    case Vertical => r + k
    case PositiveDiagonal => r + k
    case NegativeDiagonal => r - k
  }

  /** Column of the k-th cell of the window of family d that starts in column c. */
  function CellCol(d: Direction, c: int, k: int): int {
    if d == Vertical then c else c + k
  }

  /** Every cell of the window lies inside the grid. */
  predicate InsideGrid(cfg: Config, d: Direction, r: int, c: int) {
    forall k :: 0 <= k < cfg.inarow ==>
      0 <= CellRow(d, r, k) < cfg.rows && 0 <= CellCol(d, c, k) < cfg.columns
  }

  /**
    The loop bounds are exactly right: every window the loops visit lies
    inside the grid, and every window that lies inside the grid is visited.
  */
  lemma StartIffInsideGrid(cfg: Config, d: Direction, r: int, c: int)
    requires ValidConfig(cfg)
    ensures IsStart(cfg, d, r, c) <==> InsideGrid(cfg, d, r, c)
  {
    if InsideGrid(cfg, d, r, c) {
      var first, last := 0, cfg.inarow - 1;
      assert 0 <= CellRow(d, r, first) < cfg.rows && 0 <= CellCol(d, c, first) < cfg.columns;
      assert 0 <= CellRow(d, r, last) < cfg.rows && 0 <= CellCol(d, c, last) < cfg.columns;
    }
  }

  /** The cells of one window, in order (the source's `window` list). */
  function Window(cfg: Config, g: Grid, d: Direction, r: int, c: int): (w: seq<int>)
    requires WellFormed(cfg, g) && IsStart(cfg, d, r, c)
  {
    StartIffInsideGrid(cfg, d, r, c);
    seq(cfg.inarow, k requires 0 <= k < cfg.inarow => g[CellRow(d, r, k)][CellCol(d, c, k)])
  }

  /** How many times x occurs in s (Python's list.count). */
  function Count(s: seq<int>, x: int): (n: nat)
    ensures n <= |s|
  {
    if s == [] then 0 else Count(s[..|s| - 1], x) + (if s[|s| - 1] == x then 1 else 0)
  }

  /** A list holds only x exactly when x occurs in it |s| times. */
  lemma {:induction false} CountFull(s: seq<int>, x: int)
    ensures Count(s, x) == |s| <==> forall k :: 0 <= k < |s| ==> s[k] == x
  {
    if s != [] {
      var init := s[..|s| - 1];
      CountFull(init, x);
      assert forall k :: 0 <= k < |init| ==> init[k] == s[k];
    }
  }

  /** Two distinct values together occur at most |s| times, and exactly |s| times when s holds nothing else. */
  lemma {:induction false} CountPair(s: seq<int>, x: int, y: int)
    requires x != y
    ensures Count(s, x) + Count(s, y) <= |s|
    ensures Count(s, x) + Count(s, y) == |s| <==> forall k :: 0 <= k < |s| ==> s[k] == x || s[k] == y
  {
    if s != [] {
      var init := s[..|s| - 1];
      CountPair(init, x, y);
      assert forall k :: 0 <= k < |init| ==> init[k] == s[k];
    }
  }

  /** x does not occur in a list of zeros unless it is 0. */
  lemma {:induction false} CountInZeros(s: seq<int>, x: int)
    requires forall k :: 0 <= k < |s| ==> s[k] == 0
    requires x != 0
    ensures Count(s, x) == 0
  {
    if s != [] {
      CountInZeros(s[..|s| - 1], x);
    }
  }

  // ---------------------------------------------------------------------
  // Win detection
  // ---------------------------------------------------------------------

  /** The window at (r, c) of family d holds inarow copies of piece. */
  predicate FullAt(cfg: Config, g: Grid, piece: int, d: Direction, r: int, c: int)
    requires WellFormed(cfg, g) && IsStart(cfg, d, r, c)
  {
    Count(Window(cfg, g, d, r, c), piece) == cfg.inarow
  }

  /** Some window of family d is full of piece. */
  predicate FamilyHasRun(cfg: Config, g: Grid, piece: int, d: Direction)
    requires WellFormed(cfg, g)
  {
    exists r, c :: FirstRow(cfg, d) <= r < EndRow(cfg, d) && 0 <= c < EndCol(cfg, d) && FullAt(cfg, g, piece, d, r, c)
  }

  /** Some window anywhere on the grid, in any of the four families, is full of piece. */
  predicate HasRun(cfg: Config, g: Grid, piece: int)
    requires WellFormed(cfg, g)
  {
    || FamilyHasRun(cfg, g, piece, Horizontal)
    || FamilyHasRun(cfg, g, piece, Vertical)
    || FamilyHasRun(cfg, g, piece, PositiveDiagonal)
    || FamilyHasRun(cfg, g, piece, NegativeDiagonal)
  }

  /** check_winning_move: after piece is dropped into col, the grid holds a full window of piece. */
  predicate WinningMove(cfg: Config, g: Grid, col: int, piece: int)
    requires WellFormed(cfg, g) && 0 <= col < cfg.columns
  {
    DropKeepsShape(cfg, g, col, piece);
    HasRun(cfg, Dropped(cfg, g, col, piece), piece)
  }

  /** A start cell whose window is full, when the family has one. */
  lemma RunWitness(cfg: Config, g: Grid, piece: int, d: Direction) returns (r: int, c: int)
    requires WellFormed(cfg, g) && FamilyHasRun(cfg, g, piece, d)
    ensures IsStart(cfg, d, r, c) && FullAt(cfg, g, piece, d, r, c)
  {
    r, c :| FirstRow(cfg, d) <= r < EndRow(cfg, d) && 0 <= c < EndCol(cfg, d) && FullAt(cfg, g, piece, d, r, c);
  }

  /** HasRun holds exactly when some window that lies inside the grid holds piece in every cell. */
  lemma HasRunIffSomeWindowAllPiece(cfg: Config, g: Grid, piece: int)
    requires WellFormed(cfg, g)
    ensures HasRun(cfg, g, piece) <==>
      exists d, r, c :: InsideGrid(cfg, d, r, c) &&
        forall k :: 0 <= k < cfg.inarow ==> g[CellRow(d, r, k)][CellCol(d, c, k)] == piece
  {
    if HasRun(cfg, g, piece) {
      var d :| FamilyHasRun(cfg, g, piece, d);
      var r, c := RunWitness(cfg, g, piece, d);
      var w := Window(cfg, g, d, r, c);
      CountFull(w, piece);
      StartIffInsideGrid(cfg, d, r, c);
      assert forall k :: 0 <= k < cfg.inarow ==> g[CellRow(d, r, k)][CellCol(d, c, k)] == w[k] == piece;
    }
    if exists d, r, c :: InsideGrid(cfg, d, r, c) &&
        forall k :: 0 <= k < cfg.inarow ==> g[CellRow(d, r, k)][CellCol(d, c, k)] == piece {
      var d, r, c :| InsideGrid(cfg, d, r, c) &&
        forall k :: 0 <= k < cfg.inarow ==> g[CellRow(d, r, k)][CellCol(d, c, k)] == piece;
      StartIffInsideGrid(cfg, d, r, c);
      CountFull(Window(cfg, g, d, r, c), piece);
      assert FullAt(cfg, g, piece, d, r, c);
      assert FamilyHasRun(cfg, g, piece, d);
    }
  }

  /**
    One family's nested scan from check_winning_move: rows then columns of
    start cells, returning as soon as a window holds inarow copies of piece.
  */
  method FindRun(cfg: Config, g: Grid, piece: int, d: Direction) returns (found: bool)
    requires WellFormed(cfg, g)
    ensures found == FamilyHasRun(cfg, g, piece, d)
  {
    var row := FirstRow(cfg, d);
    while row < EndRow(cfg, d)
      invariant FirstRow(cfg, d) <= row
      invariant forall r, c :: IsStart(cfg, d, r, c) && r < row ==> !FullAt(cfg, g, piece, d, r, c)
    {
      var col := 0;
      while col < EndCol(cfg, d)
        invariant 0 <= col
        invariant forall r, c :: IsStart(cfg, d, r, c) && (r < row || (r == row && c < col)) ==> !FullAt(cfg, g, piece, d, r, c)
      {
        var window := Window(cfg, g, d, row, col);
        if Count(window, piece) == cfg.inarow {
          assert FullAt(cfg, g, piece, d, row, col);
          return true;
        }
        col := col + 1;
      }
      row := row + 1;
    }
    return false;
  }

  /**
    check_winning_move: drops the piece into a copy of the grid, then scans
    the whole resulting grid, family by family, for a full window.
  */
  method CheckWinningMove(cfg: Config, grid: Grid, col: int, piece: int) returns (win: bool)
    requires WellFormed(cfg, grid) && 0 <= col < cfg.columns
    ensures win == WinningMove(cfg, grid, col, piece)
  {
    var next := DropPiece(cfg, grid, col, piece);
    DropKeepsShape(cfg, grid, col, piece);
    win := FindRun(cfg, next, piece, Horizontal);
    if win { return; }
    win := FindRun(cfg, next, piece, Vertical);
    if win { return; }
    win := FindRun(cfg, next, piece, PositiveDiagonal);
    if win { return; }
    win := FindRun(cfg, next, piece, NegativeDiagonal);
  }

  /**
    Because the scan covers the whole grid, a grid that already holds a full
    window of piece makes every column a winning move for piece.
  */
  lemma ExistingRunWinsEverywhere(cfg: Config, g: Grid, col: int, piece: int)
    requires WellFormed(cfg, g) && 0 <= col < cfg.columns
    requires HasRun(cfg, g, piece)
    ensures WinningMove(cfg, g, col, piece)
  {
    var next := Dropped(cfg, g, col, piece);
    DropChangesOnlyLandingCell(cfg, g, col, piece);
    var d :| FamilyHasRun(cfg, g, piece, d);
    var r, c := RunWitness(cfg, g, piece, d);
    var before, after := Window(cfg, g, d, r, c), Window(cfg, next, d, r, c);
    CountFull(before, piece);
    forall k | 0 <= k < cfg.inarow
      ensures after[k] == piece
    {
      assert before[k] == piece;
    }
    CountFull(after, piece);
    assert FullAt(cfg, next, piece, d, r, c);
    assert FamilyHasRun(cfg, next, piece, d);
  }

  // ---------------------------------------------------------------------
  // Left-right mirror symmetry
  // ---------------------------------------------------------------------

  /** The grid reflected left to right: column c takes the cells of column columns - 1 - c. */
  function Mirror(cfg: Config, g: Grid): (m: Grid)
    requires WellFormed(cfg, g)
    ensures WellFormed(cfg, m)
  {
    seq(cfg.rows, r requires 0 <= r < cfg.rows =>
      seq(cfg.columns, c requires 0 <= c < cfg.columns => g[r][cfg.columns - 1 - c]))
  }

  /** Reflecting twice gives the grid back. */
  lemma MirrorTwice(cfg: Config, g: Grid)
    requires WellFormed(cfg, g)
    ensures Mirror(cfg, Mirror(cfg, g)) == g
  {
    var mm := Mirror(cfg, Mirror(cfg, g));
    forall r | 0 <= r < cfg.rows
      ensures mm[r] == g[r]
    {
      assert forall c :: 0 <= c < cfg.columns ==> mm[r][c] == g[r][c];
    }
  }

  /** The family a window falls into once reflected: the two diagonal families swap. */
  function MirrorDirection(d: Direction): Direction {
    match d
    case PositiveDiagonal => NegativeDiagonal
    case NegativeDiagonal => PositiveDiagonal
    case _ => d
  }

  /** The row of the reflected window's first cell. */
  function MirrorRow(cfg: Config, d: Direction, r: int): int {
    match d
    case PositiveDiagonal => r + (cfg.inarow - 1)
    case NegativeDiagonal => r - (cfg.inarow - 1)
    case _ => r
  }

  /** The column of the reflected window's first cell. */
  function MirrorCol(cfg: Config, d: Direction, c: int): int {
    if d == Vertical then cfg.columns - 1 - c else cfg.columns - c - cfg.inarow
  }

  /** A window inside the grid that is all piece has a reflected window, inside the grid, that is all piece in the mirror. */
  lemma MirrorWindow(cfg: Config, g: Grid, piece: int, d: Direction, r: int, c: int)
    requires WellFormed(cfg, g) && InsideGrid(cfg, d, r, c)
    requires forall k :: 0 <= k < cfg.inarow ==> g[CellRow(d, r, k)][CellCol(d, c, k)] == piece
    ensures var d', r', c' := MirrorDirection(d), MirrorRow(cfg, d, r), MirrorCol(cfg, d, c);
      && InsideGrid(cfg, d', r', c')
      && forall k :: 0 <= k < cfg.inarow ==> Mirror(cfg, g)[CellRow(d', r', k)][CellCol(d', c', k)] == piece
  {
    var m := Mirror(cfg, g);
    var d', r', c' := MirrorDirection(d), MirrorRow(cfg, d, r), MirrorCol(cfg, d, c);
    forall k | 0 <= k < cfg.inarow
      ensures 0 <= CellRow(d', r', k) < cfg.rows && 0 <= CellCol(d', c', k) < cfg.columns
      ensures m[CellRow(d', r', k)][CellCol(d', c', k)] == piece
    {
      var j := if d == Vertical then k else cfg.inarow - 1 - k;
      assert 0 <= CellRow(d, r, j) < cfg.rows && 0 <= CellCol(d, c, j) < cfg.columns;
      assert CellRow(d', r', k) == CellRow(d, r, j);
      assert CellCol(d', c', k) == cfg.columns - 1 - CellCol(d, c, j);
      assert g[CellRow(d, r, j)][CellCol(d, c, j)] == piece;
    }
  }

  /** One direction of the symmetry: a run on the grid is a run on its mirror. */
  lemma MirrorKeepsRun(cfg: Config, g: Grid, piece: int)
    requires WellFormed(cfg, g) && HasRun(cfg, g, piece)
    ensures HasRun(cfg, Mirror(cfg, g), piece)
  {
    var m := Mirror(cfg, g);
    HasRunIffSomeWindowAllPiece(cfg, g, piece);
    HasRunIffSomeWindowAllPiece(cfg, m, piece);
    var d, r, c :| InsideGrid(cfg, d, r, c) &&
      forall k :: 0 <= k < cfg.inarow ==> g[CellRow(d, r, k)][CellCol(d, c, k)] == piece;
    MirrorWindow(cfg, g, piece, d, r, c);
  }

  /** Reflecting the grid left to right keeps exactly the runs it had. */
  lemma MirrorRunIff(cfg: Config, g: Grid, piece: int)
    requires WellFormed(cfg, g)
    ensures HasRun(cfg, Mirror(cfg, g), piece) <==> HasRun(cfg, g, piece)
  {
    if HasRun(cfg, g, piece) {
      MirrorKeepsRun(cfg, g, piece);
    }
    if HasRun(cfg, Mirror(cfg, g), piece) {
      MirrorKeepsRun(cfg, Mirror(cfg, g), piece);
      MirrorTwice(cfg, g);
    }
  }

  /** The bottom-up walk of the reflected column stops where the walk of the column does. */
  lemma {:induction false} MirrorStopRow(cfg: Config, g: Grid, col: int, row: int)
    requires WellFormed(cfg, g) && 0 <= col < cfg.columns && 0 <= row < cfg.rows
    ensures StopRow(cfg, Mirror(cfg, g), cfg.columns - 1 - col, row) == StopRow(cfg, g, col, row)
    decreases row
  {
    assert Mirror(cfg, g)[row][cfg.columns - 1 - col] == g[row][col];
    if row > 0 {
      MirrorStopRow(cfg, g, col, row - 1);
    }
  }

  /** Dropping into the reflected column of the mirror gives the mirror of the drop. */
  lemma MirrorDrop(cfg: Config, g: Grid, col: int, piece: int)
    requires WellFormed(cfg, g) && 0 <= col < cfg.columns
    ensures && WellFormed(cfg, Dropped(cfg, g, col, piece))
            && Dropped(cfg, Mirror(cfg, g), cfg.columns - 1 - col, piece) == Mirror(cfg, Dropped(cfg, g, col, piece))
  {
    DropKeepsShape(cfg, g, col, piece);
    var m, row := Mirror(cfg, g), LandingRow(cfg, g, col);
    MirrorStopRow(cfg, g, col, cfg.rows - 1);
    var left, right := Dropped(cfg, m, cfg.columns - 1 - col, piece), Mirror(cfg, Dropped(cfg, g, col, piece));
    forall r | 0 <= r < cfg.rows
      ensures left[r] == right[r]
    {
      assert forall c :: 0 <= c < cfg.columns ==> left[r][c] == right[r][c];
    }
  }

  /**
    check_winning_move is mirror-symmetric: a column wins on a grid exactly
    when the reflected column wins on the reflected grid.
  */
  lemma MirrorWinningMove(cfg: Config, g: Grid, col: int, piece: int)
    requires WellFormed(cfg, g) && 0 <= col < cfg.columns
    ensures WinningMove(cfg, Mirror(cfg, g), cfg.columns - 1 - col, piece) <==> WinningMove(cfg, g, col, piece)
  {
    MirrorDrop(cfg, g, col, piece);
    MirrorRunIff(cfg, Dropped(cfg, g, col, piece), piece);
  }
}
