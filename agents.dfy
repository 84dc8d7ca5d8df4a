/**
  The agents: given the board and the configuration, each returns the column
  to play. A Python exception the agent raises is an outcome of its own, and
  `random.choice` picks some element of its (non-empty) list, with nothing
  said about which.
*/
module Agents {
  import opened Board
  import opened Windows
  import opened Heuristic
  import opened Lookahead

  /**
    The exceptions the agents can raise: unpacking `zip(*[])` into two names
    (ValueError), `random.choice` of an empty list (IndexError) and indexing
    an empty list (IndexError).
  */
  datatype AgentError = UnpackEmpty | ChoiceFromEmpty | IndexEmpty

  datatype Outcome = Move(col: int) | Raises(error: AgentError)

  /** Some column whose top cell is empty wins for piece. */
  predicate CanWin(cfg: Config, g: Grid, piece: int)
    requires WellFormed(cfg, g)
  {
    exists c :: 0 <= c < cfg.columns && g[0][c] == 0 && WinningMove(cfg, g, c, piece)
  }

  /** c is the lowest column whose top cell is empty and where piece wins. */
  predicate LowestWinning(cfg: Config, g: Grid, c: int, piece: int)
    requires WellFormed(cfg, g)
  {
    && 0 <= c < cfg.columns && g[0][c] == 0 && WinningMove(cfg, g, c, piece)
    && forall c' :: 0 <= c' < c && g[0][c'] == 0 ==> !WinningMove(cfg, g, c', piece)
  }

  /** The win-or-block column the tier returns is the lowest winning one, and there is one exactly when piece can win. */
  lemma TierIsLowestWinning(cfg: Config, g: Grid, piece: int)
    requires WellFormed(cfg, g)
    ensures FirstWinningColumn(cfg, g, piece).Some? <==> CanWin(cfg, g, piece)
    ensures FirstWinningColumn(cfg, g, piece).Some? ==>
      LowestWinning(cfg, g, FirstWinningColumn(cfg, g, piece).value, piece)
  {
    var r := FirstWinningColumn(cfg, g, piece);
    if r.Some? {
      assert 0 <= r.value < cfg.columns && g[0][r.value] == 0 && WinningMove(cfg, g, r.value, piece);
    }
  }

  // ---------------------------------------------------------------------
  // Highest heuristic score
  // ---------------------------------------------------------------------

  /** Python's max over the scores of the columns cols. */
  function MaxOf(cols: seq<int>, score: int -> int): (m: int)
    requires cols != []
    ensures forall c :: c in cols ==> score(c) <= m
    ensures exists c :: c in cols && score(c) == m
  {
    var last := cols[|cols| - 1];
    assert last in cols;
    if |cols| == 1 then score(last)
    else
      var init := cols[..|cols| - 1];
      assert forall c :: c in cols <==> c in init || c == last;
      var m := MaxOf(init, score);
      if score(last) > m then score(last) else m
  }

  /**
    The columns of cols, in order, whose score equals the highest score:
    exactly those scoring at least as much as every column of cols.
  */
  function ArgMaxes(cols: seq<int>, score: int -> int): (best: seq<int>)
    ensures forall c :: c in best <==> c in cols && forall c' :: c' in cols ==> score(c') <= score(c)
    ensures best == [] <==> cols == []
  {
    if cols == [] then []
    else
      var m := MaxOf(cols, score);
      var atMax := c => score(c) == m;
      var best := Filter(cols, atMax);
      FilterMembers(cols, atMax);
      var top :| top in cols && score(top) == m;
      assert top in best;
      best
  }

  /** The dictionary of score_move values, as a function of the column. */
  function Scores(cfg: Config, g: Grid, mark: int): (score: int -> int)
    requires WellFormed(cfg, g)
    ensures forall c :: 0 <= c < cfg.columns ==> score(c) == ScoreMove(cfg, g, c, mark)
  {
    c => if 0 <= c < cfg.columns then ScoreMove(cfg, g, c, mark) else 0
  }

  /**
    max_cols: the columns of cols whose score_move for the mover is highest
    among the columns of cols.
  */
  function BestColumns(cfg: Config, g: Grid, cols: seq<int>, mark: int): (best: seq<int>)
    requires WellFormed(cfg, g)
    requires forall c :: c in cols ==> 0 <= c < cfg.columns
    ensures forall c :: c in best <==>
      c in cols && forall c' :: c' in cols ==> ScoreMove(cfg, g, c', mark) <= ScoreMove(cfg, g, c, mark)
    ensures best == [] <==> cols == []
  {
    var score := Scores(cfg, g, mark);
    assert forall c :: c in cols ==> score(c) == ScoreMove(cfg, g, c, mark);
    ArgMaxes(cols, score)
  }

  /**
    On a board small enough that 1115 times its number of windows is below
    1000000 (the standard 6 x 7 board included), with run length four, a
    column of highest score is a winning one whenever some column of the
    list wins.
  */
  lemma BestColumnWinsWhenPossible(cfg: Config, g: Grid, cols: seq<int>, mark: int, best: int, win: int)
    requires WellFormed(cfg, g) && cfg.inarow == 4 && mark != 0 && 1115 * StartCount(cfg) < FourWeight
    requires forall c :: c in cols ==> 0 <= c < cfg.columns
    requires best in cols && forall c :: c in cols ==> ScoreMove(cfg, g, c, mark) <= ScoreMove(cfg, g, best, mark)
    requires win in cols && WinningMove(cfg, g, win, mark)
    ensures WinningMove(cfg, g, best, mark)
  {
    if !WinningMove(cfg, g, best, mark) {
      WinningDropOutscores(cfg, g, win, best, mark);
      assert false;
    }
  }

  // ---------------------------------------------------------------------
  // The tiered agents
  // ---------------------------------------------------------------------

  /**
    The win and block tiers shared by agent1, agent2 and agent4: the lowest
    open column where piece 1 wins, else the lowest open column where piece
    2 wins, else None.
  */
  function Tier(cfg: Config, g: Grid): (t: Option<int>)
    requires WellFormed(cfg, g)
    ensures t.Some? ==> t.value in ValidMoves(cfg, g)
  {
    match FirstWinningColumn(cfg, g, 1)
    case Some(c) => Some(c)
    case None => FirstWinningColumn(cfg, g, 2)
  }

  /**
    The tier column is the lowest open column where piece 1 wins, else the
    lowest open column where piece 2 wins, and there is one exactly when
    either piece can win.
  */
  lemma TierMeaning(cfg: Config, g: Grid)
    requires WellFormed(cfg, g)
    ensures Tier(cfg, g).Some? <==> CanWin(cfg, g, 1) || CanWin(cfg, g, 2)
    ensures CanWin(cfg, g, 1) ==> LowestWinning(cfg, g, Tier(cfg, g).value, 1)
    ensures !CanWin(cfg, g, 1) && CanWin(cfg, g, 2) ==> LowestWinning(cfg, g, Tier(cfg, g).value, 2)
  {
    TierIsLowestWinning(cfg, g, 1);
    TierIsLowestWinning(cfg, g, 2);
  }

  /**
    agent1: win with piece 1 if it can, else block piece 2 (the Tier
    column), else play some column whose top cell is empty. Both tiers
    unpack `zip(*pairs)`, which raises when no column is open.
  */
  method Agent1(cfg: Config, g: Grid) returns (r: Outcome)
    requires WellFormed(cfg, g)
    ensures r.Raises? <==> ValidMoves(cfg, g) == []
    ensures r.Raises? ==> r.error == UnpackEmpty
    ensures r.Move? ==> r.col in ValidMoves(cfg, g)
    ensures r.Move? && Tier(cfg, g).Some? ==> r.col == Tier(cfg, g).value
  {
    var valid := ValidMoves(cfg, g);
    if valid == [] {
      return Raises(UnpackEmpty);
    }
    var tier := Tier(cfg, g);
    if tier.Some? {
      return Move(tier.value);
    }
    assert valid[0] in valid;
    var c :| c in valid;
    return Move(c);
  }

  /**
    random.choice over the list avoid_two_turn_loss returns: some kept move,
    or the error random.choice raises on an empty list.
  */
  method ChooseKept(cfg: Config, g: Grid) returns (r: Outcome)
    requires WellFormed(cfg, g)
    ensures TwoTurnKeep(cfg, g) == [] ==> r == Raises(ChoiceFromEmpty)
    ensures TwoTurnKeep(cfg, g) != [] ==> r.Move? && r.col in TwoTurnKeep(cfg, g)
    ensures r.Move? ==> r.col in ValidMoves(cfg, g)
  {
    var okay := AvoidTwoTurnLoss(cfg, g);
    if okay == [] {
      return Raises(ChoiceFromEmpty);
    }
    assert okay[0] in okay;
    var c :| c in okay;
    return Move(c);
  }

  /**
    agent2: the tiers of agent1, then some move from avoid_two_turn_loss.
    That list is never None, so the last fallback is never reached and an
    empty list makes random.choice raise.
  */
  method Agent2(cfg: Config, g: Grid) returns (r: Outcome)
    requires WellFormed(cfg, g)
    ensures ValidMoves(cfg, g) == [] ==> r == Raises(UnpackEmpty)
    ensures r.Move? ==> r.col in ValidMoves(cfg, g)
    ensures ValidMoves(cfg, g) != [] && Tier(cfg, g).Some? ==> r == Move(Tier(cfg, g).value)
    ensures ValidMoves(cfg, g) != [] && Tier(cfg, g).None? ==>
      && (TwoTurnKeep(cfg, g) == [] ==> r == Raises(ChoiceFromEmpty))
      && (TwoTurnKeep(cfg, g) != [] ==> r.Move? && r.col in TwoTurnKeep(cfg, g))
  {
    var valid := ValidMoves(cfg, g);
    if valid == [] {
      return Raises(UnpackEmpty);
    }
    var tier := Tier(cfg, g);
    if tier.Some? {
      return Move(tier.value);
    }
    r := ChooseKept(cfg, g);
  }

  /**
    agent3: some column whose top cell is empty and whose score_move for the
    mover is highest among those columns. With no open column the list of
    best columns is empty (the max is never evaluated) and random.choice raises.
  */
  method Agent3(cfg: Config, g: Grid, mark: int) returns (r: Outcome)
    requires WellFormed(cfg, g)
    ensures r.Raises? <==> ValidMoves(cfg, g) == []
    ensures r.Raises? ==> r.error == ChoiceFromEmpty
    ensures r.Move? ==> && r.col in ValidMoves(cfg, g)
                        && forall c :: c in ValidMoves(cfg, g) ==> ScoreMove(cfg, g, c, mark) <= ScoreMove(cfg, g, r.col, mark)
  {
    var valid := ValidMoves(cfg, g);
    var maxCols := BestColumns(cfg, g, valid, mark);
    if maxCols == [] {
      return Raises(ChoiceFromEmpty);
    }
    assert maxCols[0] in maxCols;
    var c :| c in maxCols;
    return Move(c);
  }

  /** The keys of okay_scores: the columns of cols that are also in okay, in the order of cols. */
  function KeptColumns(cols: seq<int>, okay: seq<int>): (r: seq<int>)
    ensures forall m :: m in r <==> m in cols && m in okay
  {
    var inOkay := m => m in okay;
    FilterMembers(cols, inOkay);
    Filter(cols, inOkay)
  }

  /**
    The scoring tail of agent4: the columns of highest score_move among all
    open columns (max_cols) and among the kept ones (the keys of
    okay_scores, in the order of the open columns); some column of the
    latter when there is one, else some column of the former.
  */
  method BestKeptMove(cfg: Config, g: Grid, okay: seq<int>, mark: int) returns (c: int)
    requires WellFormed(cfg, g) && ValidMoves(cfg, g) != []
    requires forall m :: m in okay ==> m in ValidMoves(cfg, g)
    ensures c in ValidMoves(cfg, g)
    ensures okay != [] ==> c in okay && forall m :: m in okay ==> ScoreMove(cfg, g, m, mark) <= ScoreMove(cfg, g, c, mark)
    ensures okay == [] ==> forall m :: m in ValidMoves(cfg, g) ==> ScoreMove(cfg, g, m, mark) <= ScoreMove(cfg, g, c, mark)
  {
    var validMoves := ValidMoves(cfg, g);
    var maxCols := BestColumns(cfg, g, validMoves, mark);
    var okayCols := KeptColumns(validMoves, okay);
    assert forall m :: m in okay <==> m in okayCols;
    assert okay != [] ==> okay[0] in okayCols;
    var maxTwoTurnMoves := BestColumns(cfg, g, okayCols, mark);
    if maxTwoTurnMoves != [] {
      assert maxTwoTurnMoves[0] in maxTwoTurnMoves;
      c :| c in maxTwoTurnMoves;
      assert okayCols[0] in okay;
    } else {
      assert maxCols[0] in maxCols;
      c :| c in maxCols;
    }
  }

  /**
    agent4: the win and block tiers of agent1, then a column of highest
    score_move among the moves avoid_two_turn_loss keeps, or, when it keeps
    none, among all open columns. The tiers hard-code pieces 1 and 2; the
    scores use the mover's mark.
  */
  method Agent4(cfg: Config, g: Grid, mark: int) returns (r: Outcome)
    requires WellFormed(cfg, g)
    ensures r.Raises? <==> ValidMoves(cfg, g) == []
    ensures r.Raises? ==> r.error == UnpackEmpty
    ensures r.Move? ==> r.col in ValidMoves(cfg, g)
    ensures r.Move? && Tier(cfg, g).Some? ==> r.col == Tier(cfg, g).value
    ensures r.Move? && Tier(cfg, g).None? ==>
      var okay := TwoTurnKeep(cfg, g);
      && (okay != [] ==> r.col in okay && forall c :: c in okay ==> ScoreMove(cfg, g, c, mark) <= ScoreMove(cfg, g, r.col, mark))
      && (okay == [] ==> forall c :: c in ValidMoves(cfg, g) ==> ScoreMove(cfg, g, c, mark) <= ScoreMove(cfg, g, r.col, mark))
  {
    var valid := ValidMoves(cfg, g);
    if valid == [] {
      return Raises(UnpackEmpty);
    }
    var tier := Tier(cfg, g);
    if tier.Some? {
      return Move(tier.value);
    }
    var okay := AvoidTwoTurnLoss(cfg, g);
    var c := BestKeptMove(cfg, g, okay, mark);
    return Move(c);
  }

  // ---------------------------------------------------------------------
  // The simple selectors
  // ---------------------------------------------------------------------

  /** agent_random: some column whose top cell is empty; random.choice raises when there is none. */
  method AgentRandom(cfg: Config, g: Grid) returns (r: Outcome)
    requires WellFormed(cfg, g)
    ensures r.Raises? <==> forall c :: 0 <= c < cfg.columns ==> g[0][c] != 0
    ensures r.Raises? ==> r.error == ChoiceFromEmpty
    ensures r.Move? ==> 0 <= r.col < cfg.columns && g[0][r.col] == 0
  {
    var validMoves := ValidMoves(cfg, g);
    NoValidMovesIffTopRowFull(cfg, g);
    if validMoves == [] {
      return Raises(ChoiceFromEmpty);
    }
    assert validMoves[0] in validMoves;
    var c :| c in validMoves;
    return Move(c);
  }

  /** agent_leftmost: the first open column; indexing the empty list raises when there is none. */
  function AgentLeftmost(cfg: Config, g: Grid): (r: Outcome)
    requires WellFormed(cfg, g)
    ensures r.Raises? <==> forall c :: 0 <= c < cfg.columns ==> g[0][c] != 0
    ensures r.Raises? ==> r.error == IndexEmpty
    ensures r.Move? ==> && 0 <= r.col < cfg.columns && g[0][r.col] == 0
                        && forall c :: 0 <= c < r.col ==> g[0][c] != 0
  {
    var validMoves := ValidMoves(cfg, g);
    NoValidMovesIffTopRowFull(cfg, g);
    if validMoves == [] then Raises(IndexEmpty)
    else
      AscendingHeadIsLeast(validMoves);
      Move(validMoves[0])
  }

  /** agent_middle: columns // 2, the middle column (the left one of the two middles on an even width). */
  function AgentMiddle(cfg: Config): (c: int)
    ensures 0 <= 2 * c <= cfg.columns <= 2 * c + 1
    ensures cfg.columns >= 1 ==> c < cfg.columns
  {
    cfg.columns / 2
  }

  /** The grid whose every cell holds a 1. */
  function FullGrid(cfg: Config): Grid {
    seq(cfg.rows, _ => seq(cfg.columns, _ => 1))
  }

  /**
    agent_middle does not look at the board: on every configuration there is
    a settled board on which the column it names is full.
  */
  lemma MiddleMayBeFull(cfg: Config)
    requires ValidConfig(cfg)
    ensures exists g :: WellFormed(cfg, g) && Settled(cfg, g) && AgentMiddle(cfg) !in ValidMoves(cfg, g)
  {
    var g := FullGrid(cfg);
    assert WellFormed(cfg, g);
    assert g[0][AgentMiddle(cfg)] == 1;
  }
}
