# Connect X tutorial agents — a Dafny model

This project models the core of the Connect X tutorial agents:

- the board engine: dropping a piece into a column and detecting a winning move;
- the window heuristic that scores a board for one player;
- the one-ply lookahead that avoids handing the opponent a win;
- the agents built on these.

The board is the environment's observation reshaped into `rows` rows of
`columns` cells. Row 0 is on top. A cell holds 0 when empty, otherwise the
mark 1 or 2 of the player who owns it. A configuration is three naturals:
`rows`, `columns` and `inarow`, the run length that wins.

Modules, in dependency order:

- `Board` (`board.dfy`): the grid, `drop_piece` as the imperative method
  `DropPiece` proved equal to the function `Dropped`, gravity (`Settled`),
  and the list of legal columns `ValidMoves`. A column is legal when its
  top cell is 0, the test the agents apply to `obs.board[c]`.
- `Windows` (`windows.dfy`): the four families of windows (horizontal,
  vertical, positive and negative diagonal) with the source's loop bounds.
  `check_winning_move` is modelled as the methods `FindRun` and
  `CheckWinningMove`, proved equal to the predicate `WinningMove`.
- `Heuristic` (`heuristic.dfy`): `check_window`, and `count_windows` as the
  methods `CountFamily` and `CountWindows`, proved equal to the cardinality
  of a set of window starts. Also `get_heuristic` and `score_move`, with
  bounds on the counts.
- `Lookahead` (`lookahead.dfy`): `check_if_there_is_a_winning_move`, and
  `avoid_two_turn_loss` as the method `AvoidTwoTurnLoss` proved equal to the
  filter `TwoTurnKeep`. Also the corrected filter `SafeMoves`.
- `Agents` (`agents.dfy`):
  - `agent1` and `agent2` from `src/tutorial1.py`;
  - `agent3` and `agent4` from `src/tutorial2.py`;
  - `agent_random`, `agent_middle` and `agent_leftmost` from `src/agents.py`.

  Each `random.choice` is a choice of some element of the list (`:|`). A
  Python exception the agent raises is the outcome `Raises(...)`.

`drop_piece`, `check_winning_move`, `avoid_two_turn_loss` and
`check_if_there_is_a_winning_move` appear twice, with the same behaviour, in
`src/tutorial1.py` and `src/tutorial2.py`. Each is modelled once. Both
copies are cited below.

The code raises no dedicated errors, and its win and block tiers break no ties at random:

- A drop into a full column raises nothing. It overwrites the top cell
  (`DropOnFullColumn`).
- The win and block tiers take the lowest winning column, not a random one.
- The agents fail with Python's ValueError or IndexError, not a dedicated
  "no legal move" error. `agent4` and `agent1` fail while unpacking
  `zip(*[])`. `agent2` can also fail on `random.choice([])` when a column
  is still open.

## Model

| member | source | states |
|---|---|---|
| Board.StopRow | src/tutorial2.py:48-50 | The bottom-up walk of a column, started at a row, stops at a row no higher than the start. That row's cell is empty, or it is row 0. Every cell it passed over is occupied. |
| Board.DropPiece | src/tutorial2.py:46-52 | The loop with its early break writes the piece at the row the walk stops at, and nowhere else: the result is `Dropped` (also src/tutorial1.py:7-13). |
| Board.DropLandsOnLowestEmpty | src/tutorial2.py:48-51 | When the column has an empty cell, the piece lands on an empty cell with every cell below it occupied, that is the lowest empty cell. |
| Board.DropOnFullColumn | src/tutorial2.py:48-51 | On a full column the walk ends at row 0 and that top cell is overwritten with the piece. No error. |
| Board.DropChangesOnlyLandingCell | src/tutorial1.py:7-13 | The result has the grid's shape and equals the input in every cell except the landing cell of the column. The input, a value, is untouched. |
| Board.DropKeepsSettled | src/tutorial2.py:46-52 | Dropping a non-zero piece keeps a board in which no occupied cell sits above an empty one in that state, even on a full column. |
| Board.FilterMembers | src/tutorial2.py:170-175 | A list or dict comprehension with a condition (`max_cols`, `okay_scores`, `max_two_turn_moves`; also the maximizing list at src/tutorial2.py:139) keeps exactly the elements of the list that pass the condition. |
| Board.FilterAscending | src/tutorial2.py:111-119 | Filtering an ascending list gives an ascending list: the moves the appending loop keeps come out in ascending column order (also src/tutorial1.py:52-61). |
| Board.ValidMoves | src/tutorial2.py:133 | The legal-move comprehension holds exactly the columns whose top cell is 0, each once, in ascending order. |
| Board.NoValidMovesIffTopRowFull | src/agents.py:12-13 | The legal-move list is empty exactly when every top cell is occupied. |
| Windows.StartIffInsideGrid | src/tutorial2.py:11-34 | For each family, a start cell lies within the loops' ranges exactly when every cell of its window lies inside the grid. All indexing is in range, and no window inside the grid is skipped. |
| Windows.FindRun | src/tutorial2.py:11-34 | One family's nested loops return true exactly when some window of that family holds `inarow` copies of the piece. |
| Windows.CheckWinningMove | src/tutorial2.py:7-35 | Drop, then the four scans with early return: the result equals `WinningMove`, a full window of the piece anywhere in the dropped grid (also src/tutorial1.py:17-45). |
| Windows.HasRunIffSomeWindowAllPiece | src/tutorial2.py:11-35 | Checks the count test the scan uses (`count == inarow`): the board has a run exactly when, in some direction, some window inside the grid holds the piece in all of its cells. |
| Windows.MirrorWindow | src/tutorial2.py:11-34 | A window inside the grid that holds only the piece is reflected into a window inside the grid, of the same family or the other diagonal family, that holds only the piece in the mirrored grid. |
| Windows.MirrorRunIff | src/tutorial2.py:11-35 | Reflecting the grid left to right keeps exactly its runs: it has a run of the piece exactly when the grid does. |
| Windows.MirrorDrop | src/tutorial2.py:46-52 | Dropping into the reflected column of the mirrored grid gives the mirror of the drop. |
| Windows.MirrorWinningMove | src/tutorial2.py:7-35 | `check_winning_move` is mirror-symmetric: a column wins exactly when the reflected column wins on the mirrored grid. |
| Windows.ExistingRunWinsEverywhere | src/tutorial1.py:17-45 | The scan covers the whole board, so a board that already holds a full window of the piece makes every column a winning move. |
| Heuristic.CheckWindow | src/tutorial2.py:73-74 | `check_window`: the window holds `num_discs` copies of the piece and `inarow − num_discs` empty cells. Its meaning is stated by `CheckWindowIsOpenWindow` and `NoOpenWindowOfZeros`. |
| Heuristic.CheckWindowIsOpenWindow | src/tutorial2.py:73-74 | For a non-zero piece, a window passes `check_window` exactly when it holds `num_discs` copies of the piece and no cell other than the piece or 0. |
| Heuristic.NoOpenWindowOfZeros | src/tutorial2.py:73-74 | An all-empty window never passes for one or more discs. |
| Heuristic.CountFamily | src/tutorial2.py:80-103 | One family's nested loops count exactly the window starts of that family whose window passes `check_window`. |
| Heuristic.CountWindows | src/tutorial2.py:78-104 | The counter over the four families equals the total number of qualifying window starts. |
| Heuristic.FamilyStartsSize | src/tutorial2.py:80-103 | Each family's loops visit FamilySize start cells: R·Span(C) horizontal, Span(R)·C vertical and Span(R)·Span(C) for each diagonal, where Span(n) = n − N + 1 when N fits along n, and 0 otherwise. |
| Heuristic.StartCountCountsStarts | src/tutorial2.py:78-104 | `StartCount`, R·Span(C) + Span(R)·C + 2·Span(R)·Span(C), is the number of start cells the four families' loops visit, that is the number of windows on the board. |
| Heuristic.WindowCountBound | src/tutorial2.py:78-104 | `count_windows` is at most that number of windows. |
| Heuristic.Opponent | src/tutorial2.py:66-67 | `mark % 2 + 1` is 1 or 2, and swaps 1 and 2. |
| Heuristic.GetHeuristic | src/tutorial2.py:56-69 | `get_heuristic`: the weighted window counts with weights 1000000, 100, 10, −5 and −1000. Its properties are stated by `HeuristicOfEmptyGrid` and `HeuristicBounds`. |
| Heuristic.HeuristicOfEmptyGrid | src/tutorial2.py:56-69 | On an all-zero board the heuristic is 0 for either mark. |
| Heuristic.FoursIffRun | src/tutorial2.py:63-65 | With run length four and a non-zero mark, the count of four-disc windows is positive exactly when the board holds a winning run for the mark. |
| Heuristic.HeuristicBounds | src/tutorial2.py:56-69 | With T windows on the board, the heuristic is at most 110·T without a four-disc window. With one, it is at least 1000000 − 1005·T. |
| Heuristic.ScoreMove | src/tutorial2.py:39-42 | `score_move`: the heuristic of the grid after the mark is dropped into the column. `WinningDropOutscores` states how it ranks winning columns. |
| Heuristic.WinningDropOutscores | src/tutorial2.py:39-42 | With run length four and 1115·T < 1000000, a column where the mark wins gets a strictly higher `score_move` than any column where it does not. |
| Heuristic.StandardBoardWindows | src/tutorial2.py:78-104 | The 6 × 7 board with four in a row has 69 windows, so the bound above applies to it. |
| Lookahead.FirstTrue | src/tutorial2.py:126-127 | `any` then `index(True)`: the first true position, and None exactly when no flag is true. |
| Lookahead.FirstWinningIndex | src/tutorial2.py:123-127 | The result is the position, in the list of legal columns, of the first column where the piece wins. It is None exactly when no legal column wins (also src/tutorial1.py:64-68). |
| Lookahead.FirstWinningColumn | src/tutorial2.py:147-151 | `indices[booleans.index(True)]` is the lowest legal column where the piece wins. It is None exactly when there is none (also src/tutorial1.py:74-78). |
| Lookahead.TwoTurnKeep | src/tutorial2.py:107-120 | Every move the filter keeps is a legal column. |
| Lookahead.AvoidTwoTurnLoss | src/tutorial2.py:107-120 | The loop appending to `moves` returns the legal columns, in order, for which `not check_if_there_is_a_winning_move(..., 2)` holds after piece 1 is dropped (also src/tutorial1.py:48-61). |
| Lookahead.TwoTurnKeepMembers | src/tutorial2.py:107-127 | The list is ascending and never None. It keeps a legal column exactly when the opponent's reply result is None or position 0. |
| Lookahead.SafeMovesAreSafe | src/tutorial2.py:107-127 | The corrected filter keeps a legal column exactly when no column open after the drop wins for piece 2. Every such column is also kept as written. |
| Lookahead.FirstColumnReplyCountedSafe | src/tutorial2.py:117-127 | On a 2 × 2 board with two in a row, column 1 lets piece 2 win at once in column 0, yet the as-written filter keeps it and the corrected one does not. |
| Agents.TierIsLowestWinning | src/tutorial1.py:74-85 | The win and block tiers return a column exactly when the piece can win in some legal column. The column returned is the lowest such one. |
| Agents.Tier | src/tutorial1.py:74-85 | The win-or-block column, when there is one, is a legal column (the same tiers at src/tutorial2.py:147-158). |
| Agents.TierMeaning | src/tutorial1.py:74-85 | There is a tier column exactly when piece 1 or piece 2 can win in some legal column. It is the lowest column where piece 1 wins, or, when piece 1 cannot win, the lowest where piece 2 wins. |
| Agents.MaxOf | src/tutorial2.py:139 | `max(scores.values())` bounds every score and is attained by some column. |
| Agents.ArgMaxes | src/tutorial2.py:139 | The maximizing keys are exactly the columns that score at least as much as every column. The list is empty only when the column list is. |
| Agents.BestColumns | src/tutorial2.py:137-139 | `max_cols` holds exactly the columns of highest `score_move`, and is non-empty whenever a column is. |
| Agents.BestColumnWinsWhenPossible | src/tutorial2.py:137-141 | Run length four, a board with fewer than 1000000/1115 windows (6 × 7 included): a column of highest score wins whenever some listed column wins. |
| Agents.Agent1 | src/tutorial1.py:71-89 | Raises the unpacking error exactly when no column is legal. Otherwise it returns a legal column, and that column is the tier column (see `TierMeaning`) whenever there is one. |
| Agents.ChooseKept | src/tutorial1.py:111-115 | `random.choice` over the list `avoid_two_turn_loss` returns: some kept move, which is legal, or the error `random.choice` raises when the list is empty. |
| Agents.Agent2 | src/tutorial1.py:92-115 | Raises the unpacking error when no column is legal. Otherwise it returns the tier column when there is one. After that it returns some column kept by `avoid_two_turn_loss`, or raises from `random.choice` when that list is empty: the None fallback is unreachable. |
| Agents.Agent3 | src/tutorial2.py:131-141 | Raises exactly when no column is legal. Otherwise returns a legal column whose `score_move` is at least that of every legal column. |
| Agents.KeptColumns | src/tutorial2.py:174 | The keys of `okay_scores` are exactly the columns of the legal list that are also in the kept list. |
| Agents.BestKeptMove | src/tutorial2.py:163-179 | For any list of legal columns: a column of that list with the highest `score_move` among its columns when the list is non-empty, else a legal column with the highest `score_move` among all legal columns. |
| Agents.Agent4 | src/tutorial2.py:145-179 | Raises, during unpacking, exactly when no column is legal. Otherwise it returns a legal column: the tier column when there is one, else a column of highest score among the moves `avoid_two_turn_loss` keeps if it keeps any, else among all legal columns. |
| Agents.AgentRandom | src/agents.py:11-13 | Some column whose top cell is 0. Raises exactly when every top cell is occupied. |
| Agents.AgentLeftmost | src/agents.py:22-24 | The smallest column whose top cell is 0. Raises the index error exactly when every top cell is occupied. |
| Agents.AgentMiddle | src/agents.py:17-18 | `columns // 2`: twice the result is `columns` or `columns − 1`, and it is a column of the board. |
| Agents.MiddleMayBeFull | src/agents.py:17-18 | The middle selector ignores the board: every configuration has a board, in which no occupied cell sits above an empty one, where the column it names is full. |

## Left out

- Input and output, rendering, the tournament harness (`get_win_percentages`, `main`), `src/main.py`, `src/create_submission.py` and `src/tutorial4.py` (a wrapper around an external trainer with a floating-point reward) are not part of this model.
- `numpy` `asarray`, `reshape` and `tolist`, and `copy.deepcopy` of the observation: the model works directly on the reshaped grid, a value, so the copies are implicit. Aliasing and in-place update of numpy arrays are not modelled.
- `random.choice` is a nondeterministic choice of some element of a non-empty list. Nothing is said about which element, or about its distribution.
- Configurations with zero rows, zero columns or a run length of zero are excluded (`ValidConfig`). With zero rows, `drop_piece` reads an unbound loop variable. With run length zero every window is empty, so its count of the piece is 0, which equals the run length: `check_winning_move` reports a win for every column at the first horizontal start. The environment never hands these out.
- The observation's `mark` is a parameter of `Agent3` and `Agent4`. `agent1`, `agent2` and `agent4` use the fixed pieces 1 and 2 in their tiers, as the source does.
- The heuristic's disc counts are 2, 3 and 4 whatever the run length. The model keeps that. The properties that tie four-disc windows to wins (`FoursIffRun`, `WinningDropOutscores`, `BestColumnWinsWhenPossible`) are stated for a run length of four only.

## Findings

| source | as written | input that shows it | evidently intended | confidence | as-written member | corrected member |
|---|---|---|---|---|---|---|
| src/tutorial2.py:117-127 (same in src/tutorial1.py:58-68) | `check_if_there_is_a_winning_move` returns the position of the opponent's first winning reply, and `avoid_two_turn_loss` tests it with `not`. A reply at position 0 is therefore taken as "no reply" and the move is kept. | A 2 × 2 board with run length two. Piece 2 is in the bottom-left cell and everything else is empty. Column 1 is kept even though piece 2 then wins in column 0. | Keep a move only when the opponent has no winning reply at all. | not executed | Lookahead.FirstColumnReplyCountedSafe | Lookahead.SafeMovesAreSafe |

The agents use the as-written filter, because they model the source's
agents. `SafeMoves` is the corrected definition. `SafeMovesAreSafe` proves
it keeps exactly the moves with no winning reply.
