/**
  The Connect X board as the tutorial agents see it.

  The environment's observation is a flat, row-major sequence of
  rows * columns cells; the agents reshape it into a grid of `rows` rows of
  `columns` cells each, row 0 on top and row rows - 1 at the bottom. A cell
  holds 0 when it is empty and a player's mark (1 or 2) otherwise. The model
  works on the reshaped grid: cell c of the flat board's first `columns`
  entries is cell (0, c) of the grid.
*/
module Board {

  datatype Option<T> = None | Some(value: T)

  /** The environment's configuration: board height, board width, run length that wins. */
  datatype Config = Config(rows: nat, columns: nat, inarow: nat)

  type Grid = seq<seq<int>>

  /** The configurations the environment hands out: a non-empty board and a positive run length. */
  predicate ValidConfig(cfg: Config) {
    cfg.rows >= 1 && cfg.columns >= 1 && cfg.inarow >= 1
  }

  /** A grid that matches its configuration. */
  predicate WellFormed(cfg: Config, g: Grid) {
    && ValidConfig(cfg)
    && |g| == cfg.rows
    && forall r :: 0 <= r < |g| ==> |g[r]| == cfg.columns
  }

  /**
    The row that a bottom-up search of column col, started at row `row`,
    stops at: the first empty cell it meets, or row 0 when it meets none.
  */
  function StopRow(cfg: Config, g: Grid, col: int, row: int): (r: int)
    requires WellFormed(cfg, g) && 0 <= col < cfg.columns && 0 <= row < cfg.rows
    ensures 0 <= r <= row
    ensures g[r][col] == 0 || r == 0
    ensures forall r' :: r < r' <= row ==> g[r'][col] != 0
    decreases row
  {
    if g[row][col] == 0 || row == 0 then row else StopRow(cfg, g, col, row - 1)
  }

  /** The row a piece dropped into column col is written to. */
  function LandingRow(cfg: Config, g: Grid, col: int): int
    requires WellFormed(cfg, g) && 0 <= col < cfg.columns
  {
    StopRow(cfg, g, col, cfg.rows - 1)
  }

  /** The grid after `piece` is dropped into column col. */
  function Dropped(cfg: Config, g: Grid, col: int, piece: int): Grid
    requires WellFormed(cfg, g) && 0 <= col < cfg.columns
  {
    var row := LandingRow(cfg, g, col);
    g[row := g[row][col := piece]]
  }

  /**
    drop_piece: copies the grid, walks column col from the bottom row upwards
    until it meets an empty cell, and writes the piece where the walk stopped.
    A full column raises nothing: the walk ends at row 0, which is overwritten.
    The input is a value, so the copy leaves it as it was.
  */
  method DropPiece(cfg: Config, grid: Grid, col: int, piece: int) returns (next: Grid)
    requires WellFormed(cfg, grid) && 0 <= col < cfg.columns
    ensures next == Dropped(cfg, grid, col, piece)
  {
    next := grid;
    var row := cfg.rows - 1;
    while row > 0
      invariant 0 <= row < cfg.rows
      invariant StopRow(cfg, grid, col, row) == LandingRow(cfg, grid, col)
    {
      if next[row][col] == 0 {
        break;
      }
      row := row - 1;
    }
    next := next[row := next[row][col := piece]];
  }

  /** The cell the drop writes is the lowest empty cell of the column, when there is one. */
  lemma DropLandsOnLowestEmpty(cfg: Config, g: Grid, col: int, piece: int)
    requires WellFormed(cfg, g) && 0 <= col < cfg.columns
    requires exists r :: 0 <= r < cfg.rows && g[r][col] == 0
    ensures var row := LandingRow(cfg, g, col);
      && g[row][col] == 0
      && Dropped(cfg, g, col, piece)[row][col] == piece
      && (forall r :: row < r < cfg.rows ==> g[r][col] != 0)
  {
    var row := LandingRow(cfg, g, col);
    var r :| 0 <= r < cfg.rows && g[r][col] == 0;
    assert r <= row;
  }

  /** A full column raises nothing: the drop overwrites its top cell. */
  lemma DropOnFullColumn(cfg: Config, g: Grid, col: int, piece: int)
    requires WellFormed(cfg, g) && 0 <= col < cfg.columns
    requires forall r :: 0 <= r < cfg.rows ==> g[r][col] != 0
    ensures LandingRow(cfg, g, col) == 0
    ensures Dropped(cfg, g, col, piece)[0][col] == piece
  {
  }

  /** The drop returns a grid of the same shape. */
  lemma DropKeepsShape(cfg: Config, g: Grid, col: int, piece: int)
    requires WellFormed(cfg, g) && 0 <= col < cfg.columns
    ensures WellFormed(cfg, Dropped(cfg, g, col, piece))
  {
  }

  /**
    The drop returns a grid of the same shape that differs from the input in
    no cell but the one at the landing row of column col.
  */
  lemma DropChangesOnlyLandingCell(cfg: Config, g: Grid, col: int, piece: int)
    requires WellFormed(cfg, g) && 0 <= col < cfg.columns
    ensures WellFormed(cfg, Dropped(cfg, g, col, piece))
    ensures forall r, c :: 0 <= r < cfg.rows && 0 <= c < cfg.columns && (r != LandingRow(cfg, g, col) || c != col) ==>
      Dropped(cfg, g, col, piece)[r][c] == g[r][c]
  {
  }

  /** Gravity: every cell below an occupied cell is occupied. */
  predicate Settled(cfg: Config, g: Grid)
    requires WellFormed(cfg, g)
  {
    forall r1, r2, c :: 0 <= r1 < r2 < cfg.rows && 0 <= c < cfg.columns && g[r1][c] != 0 ==> g[r2][c] != 0
  }

  /** Dropping a real piece keeps a settled grid settled, even on a full column. */
  lemma DropKeepsSettled(cfg: Config, g: Grid, col: int, piece: int)
    requires WellFormed(cfg, g) && 0 <= col < cfg.columns && piece != 0
    requires Settled(cfg, g)
    ensures WellFormed(cfg, Dropped(cfg, g, col, piece)) && Settled(cfg, Dropped(cfg, g, col, piece))
  {
    var next := Dropped(cfg, g, col, piece);
    var row := LandingRow(cfg, g, col);
    forall r1, r2, c | 0 <= r1 < r2 < cfg.rows && 0 <= c < cfg.columns && next[r1][c] != 0
      ensures next[r2][c] != 0
    {
      if c == col && r1 == row {
        if g[row][col] != 0 {
          assert row == 0 && g[0][col] != 0;
        }
        assert g[r2][c] != 0;
      }
    }
  }

  /** Strictly increasing: each column at most once, in ascending order. */
  predicate Ascending(s: seq<int>) {
    forall i, j :: 0 <= i < j < |s| ==> s[i] < s[j]
  }

  /** The head of an ascending list is its least element. */
  lemma AscendingHeadIsLeast(s: seq<int>)
    requires Ascending(s) && s != []
    ensures forall x :: x in s ==> s[0] <= x
  {
    forall x | x in s
      ensures s[0] <= x
    {
      var i :| 0 <= i < |s| && s[i] == x;
      assert i == 0 || s[0] < s[i];
    }
  }

  /** The elements of s that pass keep, in their order in s (a list comprehension with a condition). */
  function Filter(s: seq<int>, keep: int -> bool): (r: seq<int>)
    ensures |r| <= |s|
  {
    if s == [] then []
    else Filter(s[..|s| - 1], keep) + (if keep(s[|s| - 1]) then [s[|s| - 1]] else [])
  }

  /** The filtered list holds exactly the elements of s that pass keep. */
  lemma {:induction false} FilterMembers(s: seq<int>, keep: int -> bool)
    ensures forall x :: x in Filter(s, keep) <==> x in s && keep(x)
  {
    if s != [] {
      var init := s[..|s| - 1];
      FilterMembers(init, keep);
      assert s == init + [s[|s| - 1]];
    }
  }

  /** Filtering a list extended by one element extends the filtered list by that element when it passes. */
  lemma FilterSnoc(s: seq<int>, x: int, keep: int -> bool)
    ensures Filter(s + [x], keep) == Filter(s, keep) + (if keep(x) then [x] else [])
  {
    assert (s + [x])[..|s + [x]| - 1] == s;
  }

  /** Filtering one more element of s extends the filtered prefix by that element when it passes. */
  lemma FilterPrefixStep(s: seq<int>, i: int, prefix: seq<int>, keep: int -> bool, kept: bool)
    requires 0 <= i < |s| && prefix == Filter(s[..i], keep) && kept == keep(s[i])
    ensures (if kept then prefix + [s[i]] else prefix) == Filter(s[..i + 1], keep)
  {
    assert s[..i + 1] == s[..i] + [s[i]];
    FilterSnoc(s[..i], s[i], keep);
  }

  /** A filtered ascending list is an ascending list. */
  lemma {:induction false} FilterAscending(s: seq<int>, keep: int -> bool)
    requires Ascending(s)
    ensures Ascending(Filter(s, keep))
  {
    if s != [] {
      var init := s[..|s| - 1];
      assert Ascending(init);
      FilterAscending(init, keep);
      var prev := Filter(init, keep);
      FilterMembers(init, keep);
      assert forall i :: 0 <= i < |prev| ==> prev[i] in prev && prev[i] in init;
    }
  }

  /**
    The columns a move may go into, ascending: those whose top cell is empty
    (the comprehension over obs.board[c] == 0, which reads the grid's row 0).
  */
  function OpenColumns(top: seq<int>, n: nat): (cols: seq<int>)
    requires n <= |top|
    ensures forall c :: c in cols <==> 0 <= c < n && top[c] == 0
    ensures Ascending(cols)
  {
    if n == 0 then []
    else
      var prev := OpenColumns(top, n - 1);
      assert forall i :: 0 <= i < |prev| ==> prev[i] in prev;
      prev + (if top[n - 1] == 0 then [n - 1] else [])
  }

  /** The columns whose top cell is empty, in ascending order. */
  function ValidMoves(cfg: Config, g: Grid): (cols: seq<int>)
    requires WellFormed(cfg, g)
    ensures forall c :: c in cols <==> 0 <= c < cfg.columns && g[0][c] == 0
    ensures forall i :: 0 <= i < |cols| ==> 0 <= cols[i] < cfg.columns && g[0][cols[i]] == 0
    ensures Ascending(cols)
  {
    var cols := OpenColumns(g[0], cfg.columns);
    assert forall i :: 0 <= i < |cols| ==> cols[i] in cols;
    cols
  }

  /** There is no valid move exactly when every top cell is occupied. */
  lemma NoValidMovesIffTopRowFull(cfg: Config, g: Grid)
    requires WellFormed(cfg, g)
    ensures ValidMoves(cfg, g) == [] <==> forall c :: 0 <= c < cfg.columns ==> g[0][c] != 0
  {
    var vm := ValidMoves(cfg, g);
    if vm != [] {
      assert vm[0] in vm;
    }
  }
}
