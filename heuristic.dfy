/**
  The static heuristic of the second tutorial: count the "open" windows of
  each size for the mover and for the opponent, and weigh the counts.
*/
module Heuristic {
  import opened Board
  import opened Windows

  /**
    check_window: the window holds numDiscs copies of piece and
    inarow - numDiscs empty cells.
  */
  predicate CheckWindow(cfg: Config, window: seq<int>, numDiscs: int, piece: int) {
    Count(window, piece) == numDiscs && Count(window, 0) == cfg.inarow - numDiscs
  }

  /**
    For a real piece, a window passes check_window exactly when it holds
    numDiscs copies of piece and nothing but piece and empty cells: an open
    window, with no opposing piece in it.
  */
  lemma CheckWindowIsOpenWindow(cfg: Config, window: seq<int>, numDiscs: int, piece: int)
    requires |window| == cfg.inarow && piece != 0
    ensures CheckWindow(cfg, window, numDiscs, piece) <==>
      Count(window, piece) == numDiscs && forall k :: 0 <= k < |window| ==> window[k] == piece || window[k] == 0
  {
    CountPair(window, piece, 0);
  }

  /** No window of an empty grid passes check_window for a positive number of discs. */
  lemma {:induction false} NoOpenWindowOfZeros(cfg: Config, window: seq<int>, numDiscs: int, piece: int)
    requires |window| == cfg.inarow && numDiscs >= 1
    requires forall k :: 0 <= k < |window| ==> window[k] == 0
    ensures !CheckWindow(cfg, window, numDiscs, piece)
  {
    if piece != 0 {
      CountInZeros(window, piece);
    } else {
      CountFull(window, 0);
    }
  }

  /**
    The start cells of family d visited before (row, col) in the source's
    row-by-row, column-by-column order whose window passes check_window.
  */
  function QualifyingBefore(cfg: Config, g: Grid, numDiscs: int, piece: int, d: Direction, row: int, col: int): set<(int, int)>
    requires WellFormed(cfg, g)
  {
    set r, c | FirstRow(cfg, d) <= r < EndRow(cfg, d) && 0 <= c < EndCol(cfg, d)
      && (r < row || (r == row && c < col))
      && CheckWindow(cfg, Window(cfg, g, d, r, c), numDiscs, piece) :: (r, c)
  }

  /** All start cells of family d whose window passes check_window. */
  function FamilyWindows(cfg: Config, g: Grid, numDiscs: int, piece: int, d: Direction): set<(int, int)>
    requires WellFormed(cfg, g)
  {
    QualifyingBefore(cfg, g, numDiscs, piece, d, EndRow(cfg, d), 0)
  }

  /** The number of windows, over the four families, that pass check_window. */
  function WindowCount(cfg: Config, g: Grid, numDiscs: int, piece: int): nat
    requires WellFormed(cfg, g)
  {
    |FamilyWindows(cfg, g, numDiscs, piece, Horizontal)|
    + |FamilyWindows(cfg, g, numDiscs, piece, Vertical)|
    + |FamilyWindows(cfg, g, numDiscs, piece, PositiveDiagonal)|
    + |FamilyWindows(cfg, g, numDiscs, piece, NegativeDiagonal)|
  }

  lemma QualifyingStep(cfg: Config, g: Grid, numDiscs: int, piece: int, d: Direction, row: int, col: int)
    requires WellFormed(cfg, g) && IsStart(cfg, d, row, col)
    ensures (row, col) !in QualifyingBefore(cfg, g, numDiscs, piece, d, row, col)
    ensures QualifyingBefore(cfg, g, numDiscs, piece, d, row, col + 1) ==
      QualifyingBefore(cfg, g, numDiscs, piece, d, row, col)
      + (if CheckWindow(cfg, Window(cfg, g, d, row, col), numDiscs, piece) then {(row, col)} else {})
  {
  }

  /** Visiting the start (row, col) adds one to the count exactly when its window passes check_window. */
  lemma CountStep(cfg: Config, g: Grid, numDiscs: int, piece: int, d: Direction, row: int, col: int, count: int)
    requires WellFormed(cfg, g) && IsStart(cfg, d, row, col)
    requires count == |QualifyingBefore(cfg, g, numDiscs, piece, d, row, col)|
    ensures (if CheckWindow(cfg, Window(cfg, g, d, row, col), numDiscs, piece) then count + 1 else count)
      == |QualifyingBefore(cfg, g, numDiscs, piece, d, row, col + 1)|
  {
    QualifyingStep(cfg, g, numDiscs, piece, d, row, col);
  }

  lemma QualifyingNextRow(cfg: Config, g: Grid, numDiscs: int, piece: int, d: Direction, row: int, col: int)
    requires WellFormed(cfg, g) && col >= EndCol(cfg, d)
    ensures QualifyingBefore(cfg, g, numDiscs, piece, d, row, col) ==
      QualifyingBefore(cfg, g, numDiscs, piece, d, row + 1, 0)
  {
  }

  lemma QualifyingFirstAndLast(cfg: Config, g: Grid, numDiscs: int, piece: int, d: Direction, row: int)
    requires WellFormed(cfg, g)
    ensures QualifyingBefore(cfg, g, numDiscs, piece, d, FirstRow(cfg, d), 0) == {}
    ensures row >= EndRow(cfg, d) ==>
      QualifyingBefore(cfg, g, numDiscs, piece, d, row, 0) == FamilyWindows(cfg, g, numDiscs, piece, d)
  {
  }

  /**
    One family's nested loops from count_windows: every visited window that
    passes check_window adds one to the count.
  */
  method CountFamily(cfg: Config, g: Grid, numDiscs: int, piece: int, d: Direction) returns (count: nat)
    requires WellFormed(cfg, g)
    ensures count == |FamilyWindows(cfg, g, numDiscs, piece, d)|
  {
    count := 0;
    var row := FirstRow(cfg, d);
    QualifyingFirstAndLast(cfg, g, numDiscs, piece, d, row);
    while row < EndRow(cfg, d)
      invariant FirstRow(cfg, d) <= row
      invariant count == |QualifyingBefore(cfg, g, numDiscs, piece, d, row, 0)|
    {
      var col := 0;
      while col < EndCol(cfg, d)
        invariant 0 <= col
        invariant count == |QualifyingBefore(cfg, g, numDiscs, piece, d, row, col)|
      {
        var window := Window(cfg, g, d, row, col);
        CountStep(cfg, g, numDiscs, piece, d, row, col, count);
        if CheckWindow(cfg, window, numDiscs, piece) {
          count := count + 1;
        }
        col := col + 1;
      }
      QualifyingNextRow(cfg, g, numDiscs, piece, d, row, col);
      row := row + 1;
    }
    QualifyingFirstAndLast(cfg, g, numDiscs, piece, d, row);
  }

  /** count_windows: the four families' loops feeding one counter. */
  method CountWindows(cfg: Config, g: Grid, numDiscs: int, piece: int) returns (numWindows: nat)
    requires WellFormed(cfg, g)
    ensures numWindows == WindowCount(cfg, g, numDiscs, piece)
  {
    var horizontal := CountFamily(cfg, g, numDiscs, piece, Horizontal);
    var vertical := CountFamily(cfg, g, numDiscs, piece, Vertical);
    var positive := CountFamily(cfg, g, numDiscs, piece, PositiveDiagonal);
    var negative := CountFamily(cfg, g, numDiscs, piece, NegativeDiagonal);
    numWindows := horizontal + vertical + positive + negative;
  }

  // ---------------------------------------------------------------------
  // How many windows there are
  // ---------------------------------------------------------------------

  /** The number of start positions of a window of n cells along a line of len cells. */
  function Span(len: int, n: int): nat {
    if n <= len then len - n + 1 else 0
  }

  /** The number of windows of family d on the board. */
  function FamilySize(cfg: Config, d: Direction): nat {
    match d
    case Horizontal => cfg.rows * Span(cfg.columns, cfg.inarow)
    case Vertical => Span(cfg.rows, cfg.inarow) * cfg.columns
    case _ => Span(cfg.rows, cfg.inarow) * Span(cfg.columns, cfg.inarow)
  }

  /**
    The number of windows on the board, over the four families:
    R(C-N+1) + (R-N+1)C + 2(R-N+1)(C-N+1) when N fits both ways.
  */
  function StartCount(cfg: Config): nat {
    cfg.rows * Span(cfg.columns, cfg.inarow)
    + Span(cfg.rows, cfg.inarow) * cfg.columns
    + 2 * Span(cfg.rows, cfg.inarow) * Span(cfg.columns, cfg.inarow)
  }

  /** The closed form adds up the four families' sizes. */
  lemma StartCountIsFamilySum(cfg: Config)
    ensures StartCount(cfg) == FamilySize(cfg, Horizontal) + FamilySize(cfg, Vertical)
      + FamilySize(cfg, PositiveDiagonal) + FamilySize(cfg, NegativeDiagonal)
  {
  }

  function Rectangle(lo: int, hi: int, w: int): set<(int, int)> {
    set r, c | lo <= r < hi && 0 <= c < w :: (r, c)
  }

  lemma {:induction false} RowSize(r: int, w: nat)
    ensures |Rectangle(r, r + 1, w)| == w
  {
    if w > 0 {
      RowSize(r, w - 1);
      assert Rectangle(r, r + 1, w) == Rectangle(r, r + 1, w - 1) + {(r, w - 1)};
    } else {
      assert Rectangle(r, r + 1, w) == {};
    }
  }

  lemma MulStep(a: int, w: int)
    ensures (a + 1) * w == a * w + w
  {
  }

  lemma RectangleSplit(lo: int, hi: int, w: nat)
    requires lo < hi
    ensures Rectangle(lo, hi, w) == Rectangle(lo, hi - 1, w) + Rectangle(hi - 1, hi, w)
    ensures Rectangle(lo, hi - 1, w) !! Rectangle(hi - 1, hi, w)
  {
  }

  lemma {:induction false} RectangleSize(lo: int, hi: int, w: nat)
    requires lo <= hi
    ensures |Rectangle(lo, hi, w)| == (hi - lo) * w
    decreases hi - lo
  {
    if lo < hi {
      RectangleSize(lo, hi - 1, w);
      RowSize(hi - 1, w);
      RectangleSplit(lo, hi, w);
      MulStep(hi - 1 - lo, w);
    } else {
      assert Rectangle(lo, hi, w) == {};
    }
  }

  lemma SubsetSize<T>(a: set<T>, b: set<T>)
    requires a <= b
    ensures |a| <= |b|
  {
    assert b == a + (b - a);
  }

  lemma FamilyBound(cfg: Config, g: Grid, numDiscs: int, piece: int, d: Direction)
    requires WellFormed(cfg, g)
    ensures |FamilyWindows(cfg, g, numDiscs, piece, d)| <= FamilySize(cfg, d)
  {
    var rows := Span(cfg.rows, cfg.inarow);
    var lo := if d == NegativeDiagonal then cfg.inarow - 1 else 0;
    var hi := lo + (if d == Horizontal then cfg.rows else rows);
    var w := if d == Vertical then cfg.columns else Span(cfg.columns, cfg.inarow);
    var windows := FamilyWindows(cfg, g, numDiscs, piece, d);
    assert windows <= Rectangle(lo, hi, w);
    SubsetSize(windows, Rectangle(lo, hi, w));
    RectangleSize(lo, hi, w);
  }

  /** The start cells the loops of family d visit, one per window of the family. */
  function Starts(cfg: Config, d: Direction): set<(int, int)> {
    set r, c | FirstRow(cfg, d) <= r < EndRow(cfg, d) && 0 <= c < EndCol(cfg, d) :: (r, c)
  }

  /** The loops of family d visit FamilySize start cells. */
  lemma FamilyStartsSize(cfg: Config, d: Direction)
    ensures |Starts(cfg, d)| == FamilySize(cfg, d)
  {
    var lo := if d == NegativeDiagonal then cfg.inarow - 1 else 0;
    var hi := lo + (if d == Horizontal then cfg.rows else Span(cfg.rows, cfg.inarow));
    var w := if d == Vertical then cfg.columns else Span(cfg.columns, cfg.inarow);
    assert Starts(cfg, d) == Rectangle(lo, hi, w);
    RectangleSize(lo, hi, w);
  }

  /** StartCount is the number of start cells count_windows visits over the four families. */
  lemma StartCountCountsStarts(cfg: Config)
    ensures StartCount(cfg) == |Starts(cfg, Horizontal)| + |Starts(cfg, Vertical)|
      + |Starts(cfg, PositiveDiagonal)| + |Starts(cfg, NegativeDiagonal)|
  {
    FamilyStartsSize(cfg, Horizontal);
    FamilyStartsSize(cfg, Vertical);
    FamilyStartsSize(cfg, PositiveDiagonal);
    FamilyStartsSize(cfg, NegativeDiagonal);
    StartCountIsFamilySum(cfg);
  }

  /** count_windows never exceeds the number of windows on the board. */
  lemma WindowCountBound(cfg: Config, g: Grid, numDiscs: int, piece: int)
    requires WellFormed(cfg, g)
    ensures WindowCount(cfg, g, numDiscs, piece) <= StartCount(cfg)
  {
    FamilyBound(cfg, g, numDiscs, piece, Horizontal);
    FamilyBound(cfg, g, numDiscs, piece, Vertical);
    FamilyBound(cfg, g, numDiscs, piece, PositiveDiagonal);
    FamilyBound(cfg, g, numDiscs, piece, NegativeDiagonal);
    StartCountIsFamilySum(cfg);
  }

  // ---------------------------------------------------------------------
  // get_heuristic and score_move
  // ---------------------------------------------------------------------

  /**
    The other player's mark, mark % 2 + 1. Python's % and Dafny's agree for
    the positive divisor 2: the remainder is 0 or 1.
  */
  function Opponent(mark: int): (opp: int)
    ensures opp == 1 || opp == 2
    ensures mark == 1 ==> opp == 2
    ensures mark == 2 ==> opp == 1
  {
    mark % 2 + 1
  }

  /** The weights A to E of get_heuristic. */
  const FourWeight := 1000000
  const ThreeWeight := 100
  const TwoWeight := 10
  const OpponentTwoWeight := -5
  const OpponentThreeWeight := -1000

  /**
    get_heuristic: the weighted counts of the mover's open windows of two,
    three and four discs and of the opponent's open windows of two and three.
    The disc counts are 2, 3 and 4 whatever inarow is.
  */
  function GetHeuristic(cfg: Config, g: Grid, mark: int): int
    requires WellFormed(cfg, g)
  {
    var numTwos := WindowCount(cfg, g, 2, mark);
    var numThrees := WindowCount(cfg, g, 3, mark);
    var numFours := WindowCount(cfg, g, 4, mark);
    var numTwosOpp := WindowCount(cfg, g, 2, Opponent(mark));
    var numThreesOpp := WindowCount(cfg, g, 3, Opponent(mark));
    FourWeight * numFours + ThreeWeight * numThrees + TwoWeight * numTwos
    + OpponentTwoWeight * numTwosOpp + OpponentThreeWeight * numThreesOpp
  }

  /** score_move: the heuristic of the grid after mark is dropped into col. */
  function ScoreMove(cfg: Config, g: Grid, col: int, mark: int): int
    requires WellFormed(cfg, g) && 0 <= col < cfg.columns
  {
    DropKeepsShape(cfg, g, col, mark);
    GetHeuristic(cfg, Dropped(cfg, g, col, mark), mark)
  }

  /** The grid of a new game: every cell empty. */
  function EmptyGrid(cfg: Config): Grid {
    seq(cfg.rows, _ => seq(cfg.columns, _ => 0))
  }

  lemma NoWindowsOnEmptyGrid(cfg: Config, numDiscs: int, piece: int, d: Direction)
    requires ValidConfig(cfg) && numDiscs >= 1
    ensures WellFormed(cfg, EmptyGrid(cfg))
    ensures FamilyWindows(cfg, EmptyGrid(cfg), numDiscs, piece, d) == {}
  {
    var g := EmptyGrid(cfg);
    forall p | p in FamilyWindows(cfg, g, numDiscs, piece, d)
      ensures false
    {
      var w := Window(cfg, g, d, p.0, p.1);
      NoOpenWindowOfZeros(cfg, w, numDiscs, piece);
    }
  }

  /** The heuristic of an empty grid is 0, for either player. */
  lemma HeuristicOfEmptyGrid(cfg: Config, mark: int)
    requires ValidConfig(cfg)
    ensures WellFormed(cfg, EmptyGrid(cfg)) && GetHeuristic(cfg, EmptyGrid(cfg), mark) == 0
  {
    forall numDiscs, piece, d | numDiscs >= 1
      ensures FamilyWindows(cfg, EmptyGrid(cfg), numDiscs, piece, d) == {}
    {
      NoWindowsOnEmptyGrid(cfg, numDiscs, piece, d);
    }
  }

  lemma FamilyFoursIffRun(cfg: Config, g: Grid, mark: int, d: Direction)
    requires WellFormed(cfg, g) && cfg.inarow == 4 && mark != 0
    ensures FamilyWindows(cfg, g, 4, mark, d) != {} <==> FamilyHasRun(cfg, g, mark, d)
  {
    if FamilyHasRun(cfg, g, mark, d) {
      var r, c := RunWitness(cfg, g, mark, d);
      CountPair(Window(cfg, g, d, r, c), mark, 0);
      assert (r, c) in FamilyWindows(cfg, g, 4, mark, d);
    }
    if FamilyWindows(cfg, g, 4, mark, d) != {} {
      var p :| p in FamilyWindows(cfg, g, 4, mark, d);
      assert FullAt(cfg, g, mark, d, p.0, p.1);
    }
  }

  /**
    With the standard run length of four, the mover's count of four-disc
    windows is positive exactly when the grid holds a winning run for it.
  */
  lemma FoursIffRun(cfg: Config, g: Grid, mark: int)
    requires WellFormed(cfg, g) && cfg.inarow == 4 && mark != 0
    ensures WindowCount(cfg, g, 4, mark) > 0 <==> HasRun(cfg, g, mark)
  {
    FamilyFoursIffRun(cfg, g, mark, Horizontal);
    FamilyFoursIffRun(cfg, g, mark, Vertical);
    FamilyFoursIffRun(cfg, g, mark, PositiveDiagonal);
    FamilyFoursIffRun(cfg, g, mark, NegativeDiagonal);
  }

  /**
    Every count is at most the number of windows T on the board, so a grid
    with no four-disc window scores at most 110 T, and one with such a
    window at least 1000000 - 1005 T.
  */
  lemma HeuristicBounds(cfg: Config, g: Grid, mark: int)
    requires WellFormed(cfg, g)
    ensures WindowCount(cfg, g, 4, mark) == 0 ==> GetHeuristic(cfg, g, mark) <= 110 * StartCount(cfg)
    ensures WindowCount(cfg, g, 4, mark) > 0 ==> GetHeuristic(cfg, g, mark) >= FourWeight - 1005 * StartCount(cfg)
  {
    WindowCountBound(cfg, g, 2, mark);
    WindowCountBound(cfg, g, 3, mark);
    WindowCountBound(cfg, g, 2, Opponent(mark));
    WindowCountBound(cfg, g, 3, Opponent(mark));
  }

  /**
    On a board small enough that 1115 T < 1000000 (the standard 6 x 7 board
    has T = 69), a column where the mover wins outscores every column where
    it does not.
  */
  lemma WinningDropOutscores(cfg: Config, g: Grid, win: int, other: int, mark: int)
    requires WellFormed(cfg, g) && cfg.inarow == 4 && mark != 0 && 1115 * StartCount(cfg) < FourWeight
    requires 0 <= win < cfg.columns && 0 <= other < cfg.columns
    requires WinningMove(cfg, g, win, mark) && !WinningMove(cfg, g, other, mark)
    ensures ScoreMove(cfg, g, other, mark) < ScoreMove(cfg, g, win, mark)
  {
    DropKeepsShape(cfg, g, win, mark);
    DropKeepsShape(cfg, g, other, mark);
    var winning, losing := Dropped(cfg, g, win, mark), Dropped(cfg, g, other, mark);
    FoursIffRun(cfg, winning, mark);
    FoursIffRun(cfg, losing, mark);
    HeuristicBounds(cfg, winning, mark);
    HeuristicBounds(cfg, losing, mark);
  }

  /** The standard board has 69 windows, so WinningDropOutscores applies to it. */
  lemma StandardBoardWindows()
    ensures StartCount(Config(6, 7, 4)) == 69
    ensures 1115 * StartCount(Config(6, 7, 4)) < FourWeight
  {
  }
}
