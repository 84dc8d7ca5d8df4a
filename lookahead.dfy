/**
  One ply of lookahead: does a player win on its next move, and which of our
  moves leave the opponent no winning reply (check_if_there_is_a_winning_move
  and avoid_two_turn_loss, identical in both tutorials).
*/
module Lookahead {
  import opened Board
  import opened Windows

  /** Python's `if any(bs): return bs.index(True)`, falling through to None. */
  function FirstTrue(bs: seq<bool>): (r: Option<nat>)
    ensures r.Some? ==> r.value < |bs| && bs[r.value] && forall j :: 0 <= j < r.value ==> !bs[j]
    ensures r.None? <==> forall j :: 0 <= j < |bs| ==> !bs[j]
  {
    if bs == [] then None
    else if bs[0] then Some(0)
    else
      match FirstTrue(bs[1..])
      case None => None
      case Some(i) => Some(i + 1)
  }

  /** The comprehension [check_winning_move(obs, config, c, piece) for c in cols]. */
  function WinningFlags(cfg: Config, g: Grid, cols: seq<int>, piece: int): (flags: seq<bool>)
    requires WellFormed(cfg, g) && forall i :: 0 <= i < |cols| ==> 0 <= cols[i] < cfg.columns
  {
    seq(|cols|, i requires 0 <= i < |cols| => WinningMove(cfg, g, cols[i], piece))
  }

  /**
    check_if_there_is_a_winning_move: the position, in the list of columns
    whose top cell is empty, of the first one where piece wins; None when
    there is none. It is a position in that list, not a column number.
  */
  function FirstWinningIndex(cfg: Config, g: Grid, piece: int): (r: Option<nat>)
    requires WellFormed(cfg, g)
    ensures var valid := ValidMoves(cfg, g);
      && (r.Some? ==> r.value < |valid| && WinningMove(cfg, g, valid[r.value], piece)
                      && forall j :: 0 <= j < r.value ==> !WinningMove(cfg, g, valid[j], piece))
      && (r.None? <==> forall c :: c in valid ==> !WinningMove(cfg, g, c, piece))
  {
    var valid := ValidMoves(cfg, g);
    var flags := WinningFlags(cfg, g, valid, piece);
    assert forall i :: 0 <= i < |valid| ==> flags[i] == WinningMove(cfg, g, valid[i], piece);
    FirstTrue(flags)
  }

  lemma AscendingBefore(s: seq<int>, i: int, x: int)
    requires Ascending(s) && 0 <= i < |s| && x in s && x < s[i]
    ensures exists j :: 0 <= j < i && s[j] == x
  {
    var j :| 0 <= j < |s| && s[j] == x;
    assert j < i;
  }

  /**
    `indices[booleans.index(True)]` in the agents: the lowest column whose
    top cell is empty and where piece wins; None when there is none.
  */
  function FirstWinningColumn(cfg: Config, g: Grid, piece: int): (r: Option<int>)
    requires WellFormed(cfg, g)
    ensures r.Some? ==> && 0 <= r.value < cfg.columns && g[0][r.value] == 0
                        && WinningMove(cfg, g, r.value, piece)
                        && forall c :: 0 <= c < r.value && g[0][c] == 0 ==> !WinningMove(cfg, g, c, piece)
    ensures r.None? <==> forall c :: 0 <= c < cfg.columns && g[0][c] == 0 ==> !WinningMove(cfg, g, c, piece)
  {
    var valid := ValidMoves(cfg, g);
    match FirstWinningIndex(cfg, g, piece)
    case None => None
    case Some(i) =>
      assert valid[i] in valid;
      assert forall c :: 0 <= c < valid[i] && g[0][c] == 0 ==> !WinningMove(cfg, g, c, piece) by {
        forall c | 0 <= c < valid[i] && g[0][c] == 0
          ensures !WinningMove(cfg, g, c, piece)
        {
          AscendingBefore(valid, i, c);
        }
      }
      Some(valid[i])
  }

  /** Python's truth value of that result: None and position 0 are both false. */
  predicate Truthy(o: Option<nat>) {
    o.Some? && o.value != 0
  }

  /**
    The test avoid_two_turn_loss applies to a move: after piece 1 is dropped
    there, `not check_if_there_is_a_winning_move(..., 2)` holds.
  */
  predicate KeptAsWritten(cfg: Config, g: Grid, move: int)
    requires WellFormed(cfg, g) && 0 <= move < cfg.columns
  {
    DropKeepsShape(cfg, g, move, 1);
    !Truthy(FirstWinningIndex(cfg, Dropped(cfg, g, move, 1), 2))
  }

  /** The condition of avoid_two_turn_loss, as a test on any integer. */
  function AsWrittenKeep(cfg: Config, g: Grid): int -> bool
    requires WellFormed(cfg, g)
  {
    m => 0 <= m < cfg.columns && KeptAsWritten(cfg, g, m)
  }

  /** The list avoid_two_turn_loss returns. */
  function TwoTurnKeep(cfg: Config, g: Grid): (moves: seq<int>)
    requires WellFormed(cfg, g)
    ensures forall m :: m in moves ==> m in ValidMoves(cfg, g)
  {
    FilterMembers(ValidMoves(cfg, g), AsWrittenKeep(cfg, g));
    Filter(ValidMoves(cfg, g), AsWrittenKeep(cfg, g))
  }

  /** The filter's test on a move is the source's test on the opponent's reply after that move. */
  lemma KeepIff(cfg: Config, g: Grid, move: int, nextGrid: Grid, reply: Option<nat>)
    requires WellFormed(cfg, g) && 0 <= move < cfg.columns
    requires nextGrid == Dropped(cfg, g, move, 1) && WellFormed(cfg, nextGrid)
    requires reply == FirstWinningIndex(cfg, nextGrid, 2)
    ensures AsWrittenKeep(cfg, g)(move) == !Truthy(reply)
  {
  }

  /**
    avoid_two_turn_loss: for each column whose top cell is empty, in order,
    drop piece 1 into a copy of the grid and append the column when the
    opponent's winning-reply test is falsy.
  */
  method AvoidTwoTurnLoss(cfg: Config, g: Grid) returns (moves: seq<int>)
    requires WellFormed(cfg, g)
    ensures moves == TwoTurnKeep(cfg, g)
  {
    var validMoves := ValidMoves(cfg, g);
    moves := [];
    for i := 0 to |validMoves|
      invariant moves == Filter(validMoves[..i], AsWrittenKeep(cfg, g))
    {
      var move := validMoves[i];
      var nextGrid := DropPiece(cfg, g, move, 1);
      DropKeepsShape(cfg, g, move, 1);
      var opponentCanWin := FirstWinningIndex(cfg, nextGrid, 2);
      KeepIff(cfg, g, move, nextGrid, opponentCanWin);
      FilterPrefixStep(validMoves, i, moves, AsWrittenKeep(cfg, g), !Truthy(opponentCanWin));
      if !Truthy(opponentCanWin) {
        moves := moves + [move];
      }
    }
    assert validMoves[..|validMoves|] == validMoves;
  }

  /**
    What avoid_two_turn_loss returns: an ascending list, never None, of the
    columns whose top cell is empty and after which the opponent either has
    no winning reply or has one at position 0 of its list of valid moves.
  */
  lemma TwoTurnKeepMembers(cfg: Config, g: Grid)
    requires WellFormed(cfg, g)
    ensures Ascending(TwoTurnKeep(cfg, g))
    ensures forall m :: m in TwoTurnKeep(cfg, g) <==>
      && 0 <= m < cfg.columns && g[0][m] == 0
      && var reply := FirstWinningIndex(cfg, Dropped(cfg, g, m, 1), 2);
         reply.None? || reply == Some(0)
  {
    FilterAscending(ValidMoves(cfg, g), AsWrittenKeep(cfg, g));
    FilterMembers(ValidMoves(cfg, g), AsWrittenKeep(cfg, g));
  }

  /** Corrected filter: keep a move only when the opponent has no winning reply at all. */
  predicate OpponentHasNoReply(cfg: Config, g: Grid, move: int)
    requires WellFormed(cfg, g) && 0 <= move < cfg.columns
  {
    DropKeepsShape(cfg, g, move, 1);
    FirstWinningIndex(cfg, Dropped(cfg, g, move, 1), 2).None?
  }

  function SafeKeep(cfg: Config, g: Grid): int -> bool
    requires WellFormed(cfg, g)
  {
    m => 0 <= m < cfg.columns && OpponentHasNoReply(cfg, g, m)
  }

  /** The safe set: the moves that do not hand the opponent an immediate win. */
  function SafeMoves(cfg: Config, g: Grid): seq<int>
    requires WellFormed(cfg, g)
  {
    Filter(ValidMoves(cfg, g), SafeKeep(cfg, g))
  }

  /**
    SafeMoves keeps exactly the moves after which no column open to the
    opponent wins for piece 2, and the as-written list keeps every one of them.
  */
  lemma SafeMovesAreSafe(cfg: Config, g: Grid)
    requires WellFormed(cfg, g)
    ensures forall m :: m in SafeMoves(cfg, g) <==>
      && 0 <= m < cfg.columns && g[0][m] == 0
      && var next := Dropped(cfg, g, m, 1);
         forall c :: 0 <= c < cfg.columns && next[0][c] == 0 ==> !WinningMove(cfg, next, c, 2)
    ensures forall m :: m in SafeMoves(cfg, g) ==> m in TwoTurnKeep(cfg, g)
  {
    FilterMembers(ValidMoves(cfg, g), SafeKeep(cfg, g));
    FilterMembers(ValidMoves(cfg, g), AsWrittenKeep(cfg, g));
    forall m | 0 <= m < cfg.columns
      ensures OpponentHasNoReply(cfg, g, m) <==>
        var next := Dropped(cfg, g, m, 1);
        forall c :: 0 <= c < cfg.columns && next[0][c] == 0 ==> !WinningMove(cfg, next, c, 2)
    {
      DropKeepsShape(cfg, g, m, 1);
      var next := Dropped(cfg, g, m, 1);
    }
  }

  lemma TinyDrop()
    ensures WellFormed(Config(2, 2, 2), [[0, 0], [2, 0]])
    ensures Dropped(Config(2, 2, 2), [[0, 0], [2, 0]], 1, 1) == [[0, 0], [2, 1]]
  {
    var cfg, g := Config(2, 2, 2), [[0, 0], [2, 0]];
    assert WellFormed(cfg, g);
    assert LandingRow(cfg, g, 1) == 1;
    var next := Dropped(cfg, g, 1, 1);
    assert next[0] == [0, 0] && next[1] == [2, 1];
  }

  lemma TinyReplyWins()
    ensures WellFormed(Config(2, 2, 2), [[0, 0], [2, 1]])
    ensures WinningMove(Config(2, 2, 2), [[0, 0], [2, 1]], 0, 2)
  {
    var cfg, next := Config(2, 2, 2), [[0, 0], [2, 1]];
    assert WellFormed(cfg, next);
    assert LandingRow(cfg, next, 0) == 0;
    var after := Dropped(cfg, next, 0, 2);
    assert after[0] == [2, 0] && after[1] == [2, 1];
    DropChangesOnlyLandingCell(cfg, next, 0, 2);
    assert Window(cfg, after, Vertical, 0, 0) == [2, 2];
    assert FullAt(cfg, after, 2, Vertical, 0, 0);
    assert FamilyHasRun(cfg, after, 2, Vertical);
  }

  lemma TinyReplyIsFirst()
    ensures WellFormed(Config(2, 2, 2), [[0, 0], [2, 1]])
    ensures FirstWinningIndex(Config(2, 2, 2), [[0, 0], [2, 1]], 2) == Some(0)
  {
    var cfg, next := Config(2, 2, 2), [[0, 0], [2, 1]];
    TinyReplyWins();
    var valid := ValidMoves(cfg, next);
    assert 0 in valid;
    assert valid[0] == 0;
  }

  /**
    The as-written filter keeps a move that loses at once: on a 2 x 2 board
    with two in a row to win, where piece 2 holds the bottom-left cell,
    dropping piece 1 into column 1 lets piece 2 win in column 0, yet
    avoid_two_turn_loss keeps column 1 because that reply sits at position 0.
  */
  lemma FirstColumnReplyCountedSafe()
    ensures var cfg := Config(2, 2, 2);
      var g := [[0, 0], [2, 0]];
      && WellFormed(cfg, g)
      && var next := Dropped(cfg, g, 1, 1);
         && WellFormed(cfg, next)
         && WinningMove(cfg, next, 0, 2)
         && 1 in TwoTurnKeep(cfg, g)
         && 1 !in SafeMoves(cfg, g)
  {
    TinyDrop();
    TinyReplyWins();
    TinyReplyIsFirst();
    var cfg, g := Config(2, 2, 2), [[0, 0], [2, 0]];
    FilterMembers(ValidMoves(cfg, g), AsWrittenKeep(cfg, g));
    FilterMembers(ValidMoves(cfg, g), SafeKeep(cfg, g));
    assert 1 in ValidMoves(cfg, g);
    assert KeptAsWritten(cfg, g, 1);
    assert !OpponentHasNoReply(cfg, g, 1);
  }
}
