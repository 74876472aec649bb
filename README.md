# Crystal Conquest: a Dafny model of the Connect Four core

This project models the game core of *llm-conquestfour*: a Connect Four game
whose computer opponent is a minimax search with alpha-beta pruning, whose
strength follows a difficulty setting and the CPU temperature, and whose
moves are narrated by a language model or by fixed fallback texts. The
model covers the rules engine, both search engines (the row-major one of
`game/minimax.py` and the column-major one of `demo/game/minimax.py` that
the game controller actually calls), the difficulty levels, the
thermal-aware strategy switch, the state validators, the game and
temperature controllers, the temperature monitor, and the small
deterministic helpers around the narration (prompt truncation, canned
responses and their cache, fallback narration history, threat detection,
move-quality classification, template filling, user settings and themes).

Layout: one module per source file, plus `Wrappers` (Option/Result),
`Text` (string helpers used by several files), `Rules` (the Connect Four
rules as functions on a value `Game`, shared by the class in
`ConnectFour` and by the search) and `SearchTree` (minimax and fail-soft
alpha-beta on a generic game tree, with the Knuth-Moore theorem that
alpha-beta started on the full window returns the minimax value). Each
engine's `_minimax` loop is proved equal to `SearchTree.AlphaBeta` on the
tree of its positions, so what is proved about `SearchTree` holds of the
engines.

Objects the source updates in place are classes (`ConnectFourGame` over an
`array2`, `GameController`, `TemperatureController`, `TemperatureMonitor`,
`FallbackNarrator`, `UserInputHandler`, `ThemeManager`, the response
cache). Engines, validators and narration helpers are functions and
methods over values. Each loop of the imperative and mixed files is a
`while` loop proved against a specification function; the scans of
demo/game/state_validator.py, game/thermal_aware_ai.py and
ai/utils/text_generation.py, which only compute values, are recursive
functions.

## Model

| member | source | states |
|---|---|---|
| Rules.EmptyBoard | game/connect_four.py:48 | a rows x cols board every cell of which is empty |
| Rules.NewGame | game/connect_four.py:38-51 | a fresh game has a rows x cols board with every cell EMPTY, ONE to move, no last move and a move counter of 0 |
| Rules.ColumnsFrom | game/connect_four.py:53-60 | get_valid_columns lists exactly the legal columns, each once, in increasing order |
| Rules.OpenRowFrom | game/connect_four.py:74-87 | get_next_open_row returns the lowest empty row of the column (every row below it occupied), or -1 when none is empty |
| Rules.MakeMove | game/connect_four.py:89-115 | make_move succeeds iff the move is legal; then the mover's piece lands on the lowest empty cell of the column, last_move is that cell, no other cell changes, the turn passes and the counter grows by one |
| Rules.Play | game/connect_four.py:89-115 | a legal move keeps the game well formed and the board's dimensions |
| Rules.OpenRowIffValid | game/connect_four.py:72-87 | on a settled board get_next_open_row finds a row exactly when is_valid_move holds, so make_move's -1 branch is unreachable |
| Rules.MakeMoveKeepsSettled | game/connect_four.py:99-108 | a move keeps gravity: no piece sits above an empty cell |
| Rules.MakeMoveFillsOne | game/connect_four.py:108-110 | every legal move fills exactly one empty cell |
| Rules.MakeMoveKeepsConsistent | game/connect_four.py:108-110 | move_count keeps counting the pieces on the board |
| Rules.NewGameConsistent | game/connect_four.py:46-51 | a new game has no pieces and a zero counter |
| Rules.DrawIffFull | game/connect_four.py:158-165 | is_draw (move_count == rows * cols) holds exactly when no cell is empty |
| Rules.FirstFourSpec | game/connect_four.py:124-154 | one scan of check_win reports the owner of the first four in scan order, and nothing only when the scan has no four |
| Rules.FirstFourFound | game/connect_four.py:124-154 | a player reported by the scan from (o, n) owns the first four at or after that position in scan order: no earlier position from (o, n) on holds a four |
| Rules.FirstFourNone | game/connect_four.py:124-154 | a scan from (o, n) that reports nobody passes no four at or after that position |
| Rules.CheckWinSpec | game/connect_four.py:117-156 | check_win returns None iff the board has no four in a row, otherwise a player owning all four cells of one |
| Rules.NewFourOwner | game/connect_four.py:108-156 | placing a piece on a board without a four can only complete fours of that piece's owner |
| Rules.MoveWinsOnlyForMover | game/connect_four.py:89-156 | after a move on an undecided board either nobody or the mover has won |
| ConnectFour.ConnectFourGame.constructor | game/connect_four.py:38-51 | a fresh rows x cols board, ONE to move, no last move, zero moves |
| ConnectFour.ConnectFourGame.IsValidMove | game/connect_four.py:62-72 | is_valid_move is the column-exists-and-top-cell-empty rule |
| ConnectFour.ConnectFourGame.GetValidColumns | game/connect_four.py:53-60 | the loop returns the legal columns in increasing order |
| ConnectFour.ConnectFourGame.GetNextOpenRow | game/connect_four.py:74-87 | the upward scan returns the lowest empty row or -1 |
| ConnectFour.ConnectFourGame.MakeMove | game/connect_four.py:89-115 | returns whether the move is legal; the state becomes the rules' move on success and is unchanged otherwise |
| ConnectFour.ConnectFourGame.ScanDirection | game/connect_four.py:124-154 | each pair of nested check_win loops returns the owner of the first four of its direction |
| ConnectFour.ConnectFourGame.ScanLine | game/connect_four.py:124-154 | the inner loop returns the first four on one line, and when there is none the scan goes on with the next line |
| ConnectFour.ConnectFourGame.CheckWin | game/connect_four.py:117-156 | the four scans in source order return the rules' check_win of the array |
| ConnectFour.ConnectFourGame.GetWinner | game/connect_four.py:176-183 | get_winner is check_win |
| ConnectFour.ConnectFourGame.IsDraw | game/connect_four.py:158-165 | is_draw is the rules' draw test |
| ConnectFour.ConnectFourGame.IsGameOver | game/connect_four.py:167-174 | a four or a draw |
| ConnectFour.ConnectFourGame.Copy | game/connect_four.py:185-198 | a new object with a fresh board array and the same state |
| ConnectFour.ConnectFourGame.Snapshot | game/connect_four.py:185-198 | the value the engines search is the game's state |
| ConnectFour.ConnectFourGame.Reset | game/connect_four.py:200-207 | an empty board in a fresh array, ONE to move, no last move, zero moves |
| SearchTree.AlphaBetaBounds | game/minimax.py:209-244 | fail-soft alpha-beta's value bounds the true minimax value from the side it fails on and is exact inside the window |
| SearchTree.MaxLoopBounds | game/minimax.py:209-226 | the maximising loop keeps its invariant over the children visited |
| SearchTree.MinLoopBounds | game/minimax.py:227-244 | the minimising loop keeps the mirror invariant |
| SearchTree.AlphaBetaIsMinimax | game/minimax.py:209-244 | started on the window (-inf, +inf), the pruned search returns exactly the minimax value |
| Minimax.CenterOrder | game/minimax.py:29-49 | the centre-first order is a permutation of the columns that never moves back towards the centre |
| Minimax.AlternateMembers | game/minimax.py:42-48 | the alternating tail lists exactly the columns farther from the centre |
| Minimax.AlternateOrdered | game/minimax.py:42-48 | the alternating tail repeats no column and never moves back towards the centre |
| Minimax.CenterOrderSeven | game/minimax.py:29-49 | with seven columns the order is [3, 2, 4, 1, 5, 0, 6] |
| Minimax.NewEngine | game/minimax.py:18-27 | an engine keeps its level and depth and searches in the seven-column centre-first order |
| Minimax.WindowScore | game/minimax.py:99-127 | a window is worth 100 iff it is four of the player's, positive iff a four, three-and-a-gap or two-and-two-gaps of the player's, negative iff the opponent's block case |
| Minimax.StandardWindowValues | game/minimax.py:118-127 | the base weights are 100, 5, 2, -80 or 0, each exactly for its own piece counts |
| Minimax.LevelWeights | game/difficulty_levels.py:53-56 | Easy blocks at -10, Medium at -20, Hard at -80, and Hard also weighs 10, 3 and -3 |
| Minimax.ReducedScoreNonNegative | game/minimax.py:263-291 | DepthLimitedMinimax's score is a non-negative multiple of 5 |
| Minimax.SumDirection | game/minimax.py:144-173 | one pair of window loops sums the window values of its direction |
| Minimax.SumLine | game/minimax.py:152-154 | one pass of the inner window loop adds exactly the window values of its line to the direction sum |
| Minimax.CountThreats | game/difficulty_levels.py:296-302 | HardAI's counting loop counts the threat sub-windows of a line |
| Minimax.TrapScore | game/difficulty_levels.py:268-306 | HardAI's trap loops add 10 per empty inner cell where two threats meet |
| Minimax.ScorePosition | game/minimax.py:129-175 | _score_position is 3 per centre piece plus every window's value (plus HardAI's traps, or only the reduced windows for DepthLimitedMinimax) |
| Minimax.WinScore | game/minimax.py:192-197 | a won position scores +1000000 iff the four belongs to the player the search maximises for, else -1000000 |
| Minimax.WinScoreAsWrittenSides | game/minimax.py:194-197 | as written the terminal score is right at minimising nodes and negated at maximising ones |
| Minimax.WinScoreAsWrittenMisjudges | game/minimax.py:194-197 | a concrete position where the score as written rewards the opponent's four |
| Minimax.MaximiserKept | game/minimax.py:214-241 | the turn passes at every move, so every node maximises for the same player |
| Minimax.Search | game/minimax.py:177-244 | _minimax returns the fail-soft alpha-beta value of the tree of positions it explores (win score, 0 for a draw, the position score at depth 0); the win score is the corrected `WinScore` of the second Findings row, not the source's as written; as the source does, a depth-0 leaf is scored for TWO at maximising nodes and for ONE at minimising ones, whichever player is maximised |
| Minimax.MaxChildren | game/minimax.py:209-226 | the maximising loop is the alpha-beta maximising loop over the legal moves in engine order |
| Minimax.MinChildren | game/minimax.py:227-244 | the minimising loop is the alpha-beta minimising loop over the legal moves in engine order |
| Minimax.MaxStep | game/minimax.py:211-224 | one column of the maximising loop: either the cut-off value of the remaining loop, or the same loop value carried on from the next column with the new alpha and best score |
| Minimax.MinStep | game/minimax.py:229-242 | one column of the minimising loop: either the cut-off value of the remaining loop, or the same loop value carried on from the next column with the new beta and best score |
| Minimax.WinsNowAsWrittenNeverFires | game/minimax.py:78-82 | from an undecided position the immediate-win test as written never fires |
| Minimax.WinsNowAsWrittenMisses | game/minimax.py:78-82 | a concrete winning move the test as written misses |
| Minimax.BestMove | game/minimax.py:51-97 | -1 iff no column is legal; otherwise a legal column, an immediate win when the order holds one, else one whose minimax value is at least every legal column's; among equal best values the earliest column of the order, unless every legal value is minus infinity (then the shuffled default); the immediate-win test is the corrected `WinsNow` and the values come from the corrected `WinScore` of the first two Findings rows, with `Minimax.Search`'s depth-0 leaves scored as the source scores them |
| Minimax.BeatsEarlierStep | game/minimax.py:92-94 | a score strictly above the best so far is strictly above every legal column scanned before it |
| Minimax.ScoreMove | game/minimax.py:77-91 | the score find_best_move gives a legal column is that column's minimax value |
| ColumnMajor.OpenRowBelow | demo/game/minimax.py:44-48 | the highest row below the bound holding 0 (all rows above it up to the bound occupied), or -1 |
| ColumnMajor.DropSpec | demo/game/minimax.py:39-48 | _make_move fails exactly for a column off the board or without an empty row; otherwise it writes the player into the bottom-most empty row and changes nothing else |
| ColumnMajor.MakeMove | demo/game/minimax.py:39-48 | the loop's result and new board are the drop's |
| ColumnMajor.PlayableDrops | demo/game/minimax.py:71-76 | a column the search tries always takes the piece |
| ColumnMajor.ScanDirZero | demo/game/minimax.py:116-146 | one direction's scan reports 0 iff no window still to test is a four |
| ColumnMajor.ScanDirOwner | demo/game/minimax.py:116-146 | a non-zero report of a scan is the owner of a four still to test |
| ColumnMajor.PendingIsGrid | demo/game/minimax.py:116-146 | the windows a direction's loops test are exactly that direction's lines on the 7 x 6 grid |
| ColumnMajor.CheckWinSpec | demo/game/minimax.py:108-149 | _check_win returns 0 iff no line of four equal non-empty cells lies on the grid, otherwise the owner of one |
| ColumnMajor.FullSpec | demo/game/minimax.py:151-153 | a full board has no playable column, and with all seven columns present the converse holds |
| ColumnMajor.WindowPointsSpec | demo/game/minimax.py:194-208 | a window is worth 100, 5, 2 or -4 exactly for its piece counts, and an empty window nothing |
| ColumnMajor.EmptyBoardScoresZero | demo/game/minimax.py:155-210 | a board without pieces evaluates to 0 |
| ColumnMajor.CenterCountBound | demo/game/minimax.py:166-169 | the centre-column count never exceeds the rows scanned |
| ColumnMajor.CenterBonusBound | demo/game/minimax.py:166-169 | the centre-column part of _evaluate_board's score is between 0 and 18: the score differs from the window sum by at most 18 |
| ColumnMajor.EvaluateBoard | demo/game/minimax.py:155-210 | _evaluate_board's loops compute the centre bonus plus the windows of every occupied cell |
| ColumnMajor.DropFillsOne | demo/game/minimax.py:39-48 | a drop into a playable column leaves one fewer free cell, so the search terminates |
| ColumnMajor.TerminalScores | demo/game/minimax.py:59-65 | the player's four is worth 1000 + depth, the opponent's -1000 - depth, a full board or depth 0 the evaluation |
| ColumnMajor.NearerWinsFirst | demo/game/minimax.py:60-63 | a nearer win outscores a farther one and a farther loss a nearer one |
| ColumnMajor.Search | demo/game/minimax.py:50-106 | _minimax returns the fail-soft alpha-beta value of the tree it explores, the player's pieces at maximising nodes and the opponent's at minimising ones |
| ColumnMajor.MaxChildren | demo/game/minimax.py:67-86 | the maximising loop is the alpha-beta maximising loop over playable columns 0..6 with the player's piece |
| ColumnMajor.MinChildren | demo/game/minimax.py:87-106 | the minimising loop places the opponent's piece and is the alpha-beta minimising loop |
| ColumnMajor.MaxStep | demo/game/minimax.py:70-84 | one column of the maximising loop: a full column leaves the loop value unchanged; otherwise the cut-off value or the loop carried on from the next column |
| ColumnMajor.MinStep | demo/game/minimax.py:90-104 | one column of the minimising loop, with the opponent's piece: the cut-off value or the loop carried on from the next column |
| ColumnMajor.ColumnScores | demo/game/minimax.py:22-31 | one score per column, present exactly for the playable columns |
| ColumnMajor.FirstBestStep | demo/game/minimax.py:33-35 | a strictly better score takes over the choice, anything else leaves it |
| ColumnMajor.FindBestMove | demo/game/minimax.py:17-37 | column 3 or a playable column; 3 when no column scores above -inf; otherwise the first playable column with the highest minimax score |
| Difficulty.AiByDifficulty | game/difficulty_levels.py:352-371 | the name is compared in lower case: "easy" gives EasyAI (depth 2), "hard" HardAI (depth 5), anything else MediumAI (depth 3), all in centre-first order |
| Difficulty.FindWin | game/difficulty_levels.py:77-81 | the immediate-win loop (with the colour corrected) returns -1 iff no legal column wins at once, else the lowest winning column |
| Difficulty.FindBlock | game/difficulty_levels.py:331-343 | HardAI's block loop returns -1 iff the opponent has no immediate win, else the lowest column where the opponent would win |
| Difficulty.HandsOverWinAsWrittenNeverHolds | game/difficulty_levels.py:175 | the filter test as written never removes a column |
| Difficulty.HandsOverWinAsWrittenMisses | game/difficulty_levels.py:161-178 | a concrete column that lets the opponent win and that the filter as written keeps |
| Difficulty.KeptBy | game/difficulty_levels.py:177 | the entries kept are entries of the list, no more of them than there were |
| Difficulty.KeptByMembers | game/difficulty_levels.py:177 | an entry is kept iff some position holds it with its drop flag down |
| Difficulty.KeptMembers | game/difficulty_levels.py:161-178 | MediumAI's filter keeps exactly the legal columns that do not hand the opponent an immediate win |
| Difficulty.ReplyWins | game/difficulty_levels.py:171-178 | the inner loop finds a reply iff some legal reply completes the replier's four |
| Difficulty.LosesAfter | game/difficulty_levels.py:161-178 | one column is dropped iff playing it hands the opponent a win |
| Difficulty.FilterStep | game/difficulty_levels.py:177 | removing every copy of the current column from the increasing list keeps the filtered prefix and the untouched rest |
| Difficulty.FilterLosing | game/difficulty_levels.py:161-178 | the filter loop returns the kept columns in their order |
| Difficulty.FilterOne | game/difficulty_levels.py:161-178 | one pass of the filter removes the column exactly when it hands the opponent a win, extending the kept prefix by one position |
| Difficulty.BestIndex | game/difficulty_levels.py:195 | the first index holding the highest score |
| Difficulty.SecondBestSpec | game/difficulty_levels.py:194-199 | after the stable descending sort, entry 1 is not the best entry, is beaten by no other entry, and beats every other entry listed before it |
| Difficulty.ScoreMoves | game/difficulty_levels.py:184-192 | the scoring loop pairs each kept column with its minimax value |
| Difficulty.EasyMove | game/difficulty_levels.py:60-88 | -1 iff no legal column; a legal column; the lowest immediate win (corrected win test, Findings row 1) when there is one; otherwise with roll < 0.3 the drawn legal column |
| Difficulty.MediumMove | game/difficulty_levels.py:137-202 | -1 iff no legal column; the lowest immediate win (corrected win test, Findings row 1) when there is one; otherwise with roll < 0.15 and more than one column kept, the second-best kept column, which does not hand the opponent a win |
| Difficulty.HardMove | game/difficulty_levels.py:310-349 | -1 iff no legal column; the lowest immediate win (corrected win test, Findings row 1); otherwise the lowest column where the opponent would win |
| Difficulty.EngineMove | game/difficulty_levels.py:60-349 | each level's find_best_move returns -1 iff no column is legal, else a legal column |
| Difficulty.ComputerMove | game/difficulty_levels.py:374-415 | -1 once the game is over; otherwise -1 iff no legal column, else a legal column; the caller's game is not changed |
| Difficulty.ColumnsSameBoard | game/difficulty_levels.py:407-409 | switching the player to move on the copy does not change the legal columns |
| ThermalAware.FirstCpu | game/thermal_aware_ai.py:44-46 | the first sensor group whose lower-cased name starts with a CPU prefix, or none |
| ThermalAware.AllReadings | game/thermal_aware_ai.py:52-55 | every reading of every group, and nothing else |
| ThermalAware.Highest | game/thermal_aware_ai.py:48 | max() is a reading at least as high as every reading |
| ThermalAware.CpuTemperature | game/thermal_aware_ai.py:29-57 | a failing or empty sensor read gives 0.0 |
| ThermalAware.CpuGroupReading | game/thermal_aware_ai.py:45-48 | with a CPU group the reading is its hottest core (0.0 for a group without readings) |
| ThermalAware.AnyGroupReading | game/thermal_aware_ai.py:50-55 | without a CPU group the reading is the hottest of all sensors, or 0.0 when there is none |
| ThermalAware.HottestOfAllSpec | game/thermal_aware_ai.py:52-57 | the all-sensor maximum bounds every reading and is one of them, or 0.0 |
| ThermalAware.NoSensorNoOverheating | game/thermal_aware_ai.py:40-67 | with a positive threshold a failing or empty sensor read is never overheating |
| ThermalAware.OverheatingIsStrict | game/thermal_aware_ai.py:59-67 | is_overheating holds iff the reading is strictly above the threshold |
| ThermalAware.NewThermalAwareAI | game/thermal_aware_ai.py:78-97 | the monitor gets the threshold, the standard engine the full depth, the limited engine the reduced score and the limited depth |
| ThermalAware.DefaultThermalAwareAI | game/thermal_aware_ai.py:78-97 | the defaults are threshold 75, standard depth 4, limited depth 2 |
| ThermalAware.StrategyChoice | game/thermal_aware_ai.py:99-110 | select_strategy picks the limited engine iff the reading is above the threshold, otherwise the standard one, with its depth |
| ThermalAware.FindBestMove | game/thermal_aware_ai.py:112-124 | the engine selected by one sensor read makes the whole move: -1 iff no legal column, an immediate win (corrected win test, Findings row 1) when there is one, else a best column by that engine's minimax |
| GameValidator.DefaultValidator | game/state_validator.py:19-29 | the validator's defaults are 6 rows and 7 columns |
| GameValidator.RunLenCovers | game/state_validator.py:116-123 | the running counter reaches k exactly when the last k cells scanned are all the player's |
| GameValidator.LineRun | game/state_validator.py:115-161 | one counting loop returns true iff four consecutive cells of the player lie within its range |
| GameValidator.CountCell | game/state_validator.py:115-161 | one step of a counting loop: a count reaching four means four player cells end at this step; otherwise the count is the run so far and no four lies before |
| GameValidator.RunStep | game/state_validator.py:117-123 | one more cell: the counter reaches 4 exactly on a run, and no run was passed over |
| GameValidator.LoopBounds | game/state_validator.py:117-153 | on the board, the loop bounds keep exactly the runs within 3 steps of the cell |
| GameValidator.CheckWinAt | game/state_validator.py:102-163 | _check_win_at holds iff four or more consecutive cells of the player lie on a line through the cell within 3 steps of it |
| GameValidator.RunIsFour | game/state_validator.py:102-163 | such a run is a four in a row in check_win's sense |
| GameValidator.WinThroughHasFour | game/state_validator.py:102-163 | _check_win_at is sound: a run through the cell is a four on the board |
| GameValidator.NewFourRunsThrough | game/state_validator.py:89-100 | on a board without a four, placing a piece makes a four iff _check_win_at sees a run through that cell |
| GameValidator.RunOfFour | game/state_validator.py:102-163 | a four of the player seen from one of its cells is a run the loops find |
| GameValidator.FreshCell | game/state_validator.py:89-100 | a four that appears after placing a piece covers the placed cell |
| GameValidator.LandingRow | game/state_validator.py:89-94 | every legal column has a landing row, so the write at line 94 never uses -1 |
| GameValidator.TryColumn | game/state_validator.py:90-98 | one pass: drop into a copy and check the landing cell |
| GameValidator.NextMovesForWin | game/state_validator.py:75-100 | the returned columns are exactly the legal columns where the drop wins at its landing cell, in increasing order |
| GameValidator.CollectStep | game/state_validator.py:89-98 | appending the current column when it wins keeps the list exactly the winning columns below the next legal one, in increasing order |
| GameValidator.EarlierIsSmaller | game/state_validator.py:89 | the legal columns come in increasing order, so the list appended to is too |
| GameValidator.WinningDropIff | game/state_validator.py:89-100 | on a board without a four a column is reported iff the drop makes a four anywhere |
| GameValidator.ValidateMove | game/state_validator.py:245-261 | validate_move holds iff the column is in range and its top cell is empty (demo/game/state_validator.py:216-220 is the same test) |
| GameValidator.Estimate | game/state_validator.py:298-300 | the estimate max(2, 7 - lines // 2) lies in 2..7 |
| GameValidator.MinimumMovesToWin | game/state_validator.py:263-302 | 1 iff some drop wins at once; otherwise the estimate from the horizontal potential lines, or -1 without any; always -1 or 1..7 |
| GameValidator.RowLines | game/state_validator.py:287-293 | the inner window loop counts the potential lines of one row |
| GameValidator.NoPiecesNoPotential | game/state_validator.py:286-293 | a player without pieces has no potential lines |
| DemoValidator.AllEqualReads | demo/game/state_validator.py:74 | on cells that exist, all() reads every cell it needs and reports whether the window holds the player |
| DemoValidator.AllEqualInGrid | demo/game/state_validator.py:74-92 | a window inside the validator's grid never reads past the lists |
| DemoValidator.PendingIsGrid | demo/game/state_validator.py:71-93 | the windows each pair of loops tests are exactly that direction's windows on the grid |
| DemoValidator.ScanForSpec | demo/game/state_validator.py:71-93 | on a grid of the validator's shape a scan never fails, and it finds a line iff a window still to test holds the player |
| DemoValidator.CheckWinSpec | demo/game/state_validator.py:69-95 | _check_win on a grid of the validator's shape is true exactly when the player holds four cells in a line |
| DemoValidator.ShortGridNeverClear | demo/game/state_validator.py:78-81 | a grid with fewer column lists than the validator expects never comes back cleanly without a line |
| DemoValidator.NoLineFromOneCell | demo/game/state_validator.py:69-95 | a grid holding the player in at most one cell has no line of the player |
| DemoValidator.ZeroFromSpec | demo/game/state_validator.py:41-43 | the innermost gravity loop passes iff every later cell of the column is empty |
| DemoValidator.ColumnSettledSpec | demo/game/state_validator.py:38-43 | the loop over one column passes iff no checked empty cell has a piece above it |
| DemoValidator.GravitySpec | demo/game/state_validator.py:37-43 | the gravity loops pass iff no column has a piece above an empty checked cell |
| DemoValidator.StateCheckSpec | demo/game/state_validator.py:31-67 | is_valid_state accepts iff gravity holds, ONE has as many pieces as TWO or one more, not both players have a line, a line of ONE comes with one piece more and a line of TWO with equal counts |
| DemoValidator.ValidStateHasNoGap | demo/game/state_validator.py:36-43 | the corrected check rejects every board with a piece above an empty cell |
| DemoValidator.FloatingBoard | demo/game/state_validator.py:19-29 | the counterexample board has the validator's default shape |
| DemoValidator.FloatingPieceAccepted | demo/game/state_validator.py:37-43 | as written, is_valid_state accepts a piece floating over an empty lowest cell; the corrected check rejects it |
| DemoValidator.FloatingPieces | demo/game/state_validator.py:47-65 | the floating board passes the count and win rules: one piece of ONE, none of TWO, no line for either |
| DemoValidator.FloatingGaps | demo/game/state_validator.py:37-43 | the floating board has a gap at index 0 of column 0 and none from index 1 on |
| DemoValidator.RowView | demo/game/state_validator.py:112-116 | the game's board as the copy holds it, row-major |
| DemoValidator.ColumnView | demo/game/state_validator.py:74 | the same board read column by column, with the cell values _check_win compares |
| DemoValidator.NextMovesFromSpec | demo/game/state_validator.py:111-120 | the corrected loop keeps exactly the columns where the drop makes a line |
| DemoValidator.NextMovesForWinSpec | demo/game/state_validator.py:97-122 | the corrected next_moves_for_win lists exactly the legal columns whose drop gives the player a line of four |
| DemoValidator.NextMovesAsWrittenFromAll | demo/game/state_validator.py:111-120 | as written, on a board with 4 <= rows < cols, the loop either raises IndexError or reports every legal column |
| DemoValidator.NoDropWinsOnEmpty | demo/game/state_validator.py:111-120 | on an empty board no single drop makes a line |
| DemoValidator.NextMovesAsWrittenMisreports | demo/game/state_validator.py:97-122 | on an empty 6 x 7 style game no column wins, yet as written the call raises or reports column 0 |
| GameControl.Transpose | app/controllers/game_controller.py:101-103 | board.T.tolist(): the column lists hold each cell's value at [col][row] |
| GameControl.RowLists | app/controllers/game_controller.py:97-105 | a board of another shape reaches the engine unchanged, rows as lists |
| GameControl.EngineBoard | app/controllers/game_controller.py:97-105 | the board handed to the engine always has a first cell in every list |
| GameControl.PlayableIsLegal | app/controllers/game_controller.py:101-108 | on the 6 x 7 board the engine's playable columns are exactly the game's legal moves |
| GameControl.Settle | app/controllers/game_controller.py:119-136 | _check_end_conditions ends the game iff it was over or there is a four or a draw; a four names its owner as winner, otherwise the winner is kept |
| GameControl.SettleIdempotent | app/controllers/game_controller.py:119-136 | checking the end conditions twice changes nothing more |
| GameControl.DrawKeepsNoWinner | app/controllers/game_controller.py:130-136 | a draw ends the game without a winner |
| GameControl.GameController.constructor | app/controllers/game_controller.py:13-25 | a fresh 6 x 7 game, the temperature controller at its start, cleared flags, depths 3 and 2 |
| GameControl.GameController.NewGame | app/controllers/game_controller.py:27-40 | a fresh game object, game_over false, winner EMPTY, no last move column or narrative; the engine depths are kept |
| GameControl.GameController.CheckEndConditions | app/controllers/game_controller.py:119-136 | the flags become Settle of the old flags and the board; nothing else changes |
| GameControl.GameController.PlayColumn | app/controllers/game_controller.py:70-79 | a legal column is played, recorded as the last move column and followed by the end check; an illegal one changes nothing; the depths and the last narrative are untouched |
| GameControl.GameController.MakePlayerMove | app/controllers/game_controller.py:64-79 | false and no change once the game is over; otherwise success iff the move is legal, with the move, its column and the end check; the depths and the last narrative are untouched |
| GameControl.GameController.EngineMove | app/controllers/game_controller.py:105 | the column satisfies find_best_move's promise for piece 2 on the board handed over |
| GameControl.GameController.MakeAiMove | app/controllers/game_controller.py:81-117 | None once the game is over; otherwise the engine's column at the thermal depth iff overheating (else the regular depth), played like a player's move when legal; the depths and the last narrative are untouched |
| GameControl.GameController.GetBoardData | app/controllers/game_controller.py:150-174 | always a 6 x 7 grid holding each cell's value where the board has that cell and 0 elsewhere |
| GameControl.GameController.SetLastNarrative | app/controllers/game_controller.py:176-178 | stores the narrative and changes nothing else |
| TemperatureMonitoring.Reading | app/utils/temperature_monitor.py:35-77 | a set simulated temperature is returned as it is; otherwise None exactly on an unsupported platform, else the platform's sample |
| TemperatureMonitoring.Push | app/utils/temperature_monitor.py:79-83 | the history grows by the new entry, at most ten entries are kept, and the oldest one is dropped first |
| TemperatureMonitoring.CriticalIsHigh | app/utils/temperature_monitor.py:85-109 | every critical reading is high, and 80 degrees is high but not critical |
| TemperatureMonitoring.PlaceholderNeverHigh | app/utils/temperature_monitor.py:50-64 | a reading drawn from random.uniform(40.0, 65.0), with no simulated value, is neither high (75) nor critical (85) |
| TemperatureMonitoring.TrendOf | app/utils/temperature_monitor.py:111-134 | None below two entries; otherwise stable iff the first-to-last change is under 2 in size, rising iff it is at least +2, falling iff at most -2 |
| TemperatureMonitoring.Reverse | app/utils/temperature_monitor.py:122-123 | the history read backwards |
| TemperatureMonitoring.TrendReversed | app/utils/temperature_monitor.py:122-134 | read backwards a rising history falls, a falling one rises and a stable one stays stable |
| TemperatureMonitoring.PushAll | app/utils/temperature_monitor.py:79-83 | any number of updates keeps at most ten entries |
| TemperatureMonitoring.Newest | app/utils/temperature_monitor.py:81-83 | the last min(length, 10) entries of a sequence |
| TemperatureMonitoring.PushIsNewest | app/utils/temperature_monitor.py:79-83 | one update keeps the newest ten of the old history and the new reading |
| TemperatureMonitoring.NewestAppend | app/utils/temperature_monitor.py:81-83 | trimming before appending gives the same newest ten as trimming after |
| TemperatureMonitoring.PushAllKeepsNewest | app/utils/temperature_monitor.py:79-83 | after any sequence of updates the history is exactly the newest ten of the old history and the readings, in order |
| TemperatureMonitoring.TemperatureMonitor.constructor | app/utils/temperature_monitor.py:22-33 | no simulated temperature and an empty history |
| TemperatureMonitoring.TemperatureMonitor.UpdateHistory | app/utils/temperature_monitor.py:79-83 | the history becomes Push of the old one |
| TemperatureMonitoring.TemperatureMonitor.GetTemperature | app/utils/temperature_monitor.py:35-77 | returns the reading; only a platform sample is recorded in the history |
| TemperatureMonitoring.TemperatureMonitor.IsHighTemperature | app/utils/temperature_monitor.py:85-96 | true iff the reading exists and is at least 75 |
| TemperatureMonitoring.TemperatureMonitor.IsCriticalTemperature | app/utils/temperature_monitor.py:98-109 | true iff the reading exists and is at least 85 |
| TemperatureMonitoring.TemperatureMonitor.GetTemperatureTrend | app/utils/temperature_monitor.py:111-134 | the trend of the stored history |
| TemperatureControl.Clamp | app/controllers/temperature_controller.py:119 | the result lies in [35, 90], equals the input inside that range and the nearer bound outside it |
| TemperatureControl.ClampIdempotent | app/controllers/temperature_controller.py:119 | clamping twice is clamping once |
| TemperatureControl.SimStep | app/controllers/temperature_controller.py:121-135 | steps 0..14 add 2, steps 15..29 subtract 1.5, both advancing the step; from step 30 the simulation stops and the step resets |
| TemperatureControl.HeatingPhase | app/controllers/temperature_controller.py:123-125 | k of the first fifteen steps raise the temperature by 2k |
| TemperatureControl.CoolingPhase | app/controllers/temperature_controller.py:126-128 | k of the next fifteen steps lower it by 1.5k |
| TemperatureControl.SimStepsAdd | app/controllers/temperature_controller.py:121-135 | m steps and then n steps are m + n steps |
| TemperatureControl.OverheatRun | app/controllers/temperature_controller.py:121-149 | a simulated overheat peaks 30 degrees up after 15 steps and ends, after 31, 7.5 degrees above its start with the simulation off |
| TemperatureControl.TempColor | app/controllers/temperature_controller.py:137-144 | green iff below 50, orange iff 50 up to 70, red iff 70 or more |
| TemperatureControl.ColorMonotone | app/controllers/temperature_controller.py:137-144 | a hotter reading never shows a milder colour |
| TemperatureControl.TemperatureController.constructor | app/controllers/temperature_controller.py:18-24 | 40 degrees, not simulating, step 0 |
| TemperatureControl.TemperatureController.IsOverheating | app/controllers/temperature_controller.py:70-72 | true iff the current temperature is strictly above 75 |
| TemperatureControl.TemperatureController.SimulateMildFluctuation | app/controllers/temperature_controller.py:114-119 | the drift is added and the result clamped to [35, 90]; nothing else changes |
| TemperatureControl.TemperatureController.SimulateTemperature | app/controllers/temperature_controller.py:121-135 | the state takes one simulation step |
| TemperatureControl.TemperatureController.UpdateTemperature | app/controllers/temperature_controller.py:45-51 | while simulating one simulation step; otherwise the sensor reading when there is one, else a mild fluctuation |
| TemperatureControl.TemperatureController.SimulateOverheat | app/controllers/temperature_controller.py:146-149 | simulating from step 0, the temperature unchanged |
| Text.Lower | app/handlers/user_input_handler.py:114 | str.lower as the theme handler, the simple model (demo/ai/model_loader.py:112) and the generation helpers (ai/utils/text_generation.py:97) use it: same length, every ASCII letter lower-cased, every other character kept |
| Text.LowerIdempotent | game/difficulty_levels.py:361 | lower-casing twice changes nothing more |
| Text.RFind | ai/utils/text_generation.py:80 | str.rfind: the last index where the pattern occurs, -1 iff it does not occur |
| Text.ReplaceAbsent | game/narrative_engine.py:364 | replace changes nothing where the pattern does not occur |
| Text.ReplaceBySelf | game/narrative_engine.py:364 | replacing a pattern by itself is the identity |
| Text.ReplaceAfterPlain | game/narrative_engine.py:364 | text without the pattern's first character passes through replace untouched |
| Text.ReplaceOne | game/narrative_engine.py:364 | one occurrence between plain parts is replaced and nothing else |
| Text.ReplaceAt | game/narrative_engine.py:364 | after text without the pattern's first character, the next occurrence is replaced and the scan carries on past it |
| TextGeneration.PyPrefix | ai/utils/text_generation.py:76 | a Python slice prompt[:k] is a prefix of length min(k, len) for k >= 0 |
| TextGeneration.CutAtEnding | ai/utils/text_generation.py:79-84 | the loop over the endings returns a prefix of the text |
| TextGeneration.TruncatePrompt | ai/utils/text_generation.py:55-84 | the result is a prefix of the prompt, the prompt itself when it has at most 4 * max_tokens characters, and never longer than that |
| TextGeneration.CutAtEndingSpec | ai/utils/text_generation.py:79-84 | either nothing is cut, or the cut ends on the punctuation of the first ending whose last occurrence lies beyond 70 percent of the limit |
| TextGeneration.CutEndsOnEnding | ai/utils/text_generation.py:79-84 | a cut short of the whole text ends on an ending's punctuation beyond 70 percent of the limit |
| TextGeneration.TruncateKeepsPunctuation | ai/utils/text_generation.py:67-84 | a prompt cut short of the limit ends on '.', '!' or '?' beyond 70 percent of the limit |
| TextGeneration.GenerateWithTimeout | ai/utils/text_generation.py:14-52 | below two seconds the fixed placeholder; otherwise the generated text, the timeout text or the error text by outcome |
| TextGeneration.EarlyExitIgnoresGeneration | ai/utils/text_generation.py:32-34 | below two seconds the answer does not depend on generation at all |
| TextGeneration.ResponsesFor | ai/utils/text_generation.py:97-156 | every theme's list has ten responses |
| TextGeneration.SelectThemedResponse | ai/utils/text_generation.py:87-156 | the answer is one of that theme's responses |
| TextGeneration.ThemeIgnoresCase | ai/utils/text_generation.py:97-142 | the theme's case does not matter, and "sci-fi" and "scifi" name the same list |
| ModelLoader.ResponseList | demo/ai/model_loader.py:75-158 | the list a model draws from: the default responses for an unknown theme; five per list, ten for a themed list of the enhanced model |
| ModelLoader.BaseGenerate | demo/ai/model_loader.py:110-122 | the response is one of the lower-cased theme's list, the first one for an empty prompt |
| ModelLoader.EmptyPromptFirst | demo/ai/model_loader.py:119-122 | an empty prompt hashes to 0 and gets the first response of the list |
| ModelLoader.Pick | demo/ai/model_loader.py:117-122 | the response drawn is the list entry at the prompt's character-code sum modulo the list length |
| ModelLoader.UnknownThemeFallsBack | demo/ai/model_loader.py:115 | an unknown theme draws from the default list, the same in both models |
| ModelLoader.GenerateIgnoresCase | demo/ai/model_loader.py:112 | the theme is looked up lower-cased |
| ModelLoader.SituationSuffix | demo/ai/model_loader.py:162-184 | the suffix for the lower-cased prompt with precedence threat, then winning, then opening, and none iff no keyword occurs |
| ModelLoader.EnhancedGenerate | demo/ai/model_loader.py:160-184 | a response of the extended list followed by exactly the situation suffix |
| ModelLoader.ThreatTakesPrecedence | demo/ai/model_loader.py:164-178 | a prompt mentioning a threat ends in the danger suffix whatever else it mentions |
| ModelLoader.Oldest | demo/ai/model_loader.py:1363-1365 | the first n history entries, or all of them |
| ModelLoader.Drop | demo/ai/model_loader.py:1370 | cache_history[overflow:]: the entries after the first n |
| ModelLoader.Evict | demo/ai/model_loader.py:1357-1372 | nothing changes within the size limit; otherwise exactly the keys among the oldest overflow history entries are deleted and no entry changes |
| ModelLoader.SplitHistory | demo/ai/model_loader.py:1370 | in a history without repeats the entries kept are those not evicted |
| ModelLoader.EvictSynced | demo/ai/model_loader.py:1357-1372 | with the history listing each cached key once, eviction keeps them in step and leaves min(size, max) entries |
| ModelLoader.EvictKeys | demo/ai/model_loader.py:1360-1370 | after an eviction the cached keys are exactly the history entries left |
| ModelLoader.StoreBounded | demo/ai/model_loader.py:1147-1150 | storing a missed prompt keeps cache and history in step and the cache within max_cache_size; the new entry stays iff the limit is positive |
| ModelLoader.StoreLlmAsWrittenOverflows | demo/ai/model_loader.py:1216-1217 | with a limit of one, an LLM store as written and then a prompt store leave two cached entries |
| ModelLoader.ResponseCache.constructor | demo/ai/model_loader.py:938-971 | an empty cache and history, the limit 100, theme fantasy, no model loaded |
| ModelLoader.ResponseCache.LoadNpuModel | demo/ai/model_loader.py:1068-1079 | the enhanced model is loaded in place of an NPU model; the cache and theme are untouched |
| ModelLoader.ResponseCache.LoadFallbackModel | demo/ai/model_loader.py:1081-1090 | the simple model is loaded; the cache is untouched |
| ModelLoader.ResponseCache.SetTheme | demo/ai/model_loader.py:1092-1103 | the theme is set and nothing else changes |
| ModelLoader.ResponseCache.ManageCache | demo/ai/model_loader.py:1357-1372 | the cache and history become Evict of the old ones |
| ModelLoader.ResponseCache.GenerateFromPrompt | demo/ai/model_loader.py:1105-1152 | the initialising text when no model is loaded; a cached prompt's response unchanged; otherwise the model's response, stored by Store |
| ModelLoader.CenterAndEdgeDisjoint | demo/ai/model_loader.py:725-735 | with three or more columns no column is both centre and edge, and with seven the centre is columns 2..4 |
| ModelLoader.RunCells | demo/ai/model_loader.py:691-702 | a counting loop covers exactly the player's consecutive cells and stops at the first other one |
| ModelLoader.RunCovers | demo/ai/model_loader.py:691-702 | every cell a counting loop counts holds the player's piece |
| ModelLoader.RunStops | demo/ai/model_loader.py:691-702 | the cell where a counting loop stops does not hold the player's piece |
| ModelLoader.RemoveOldest | demo/ai/model_loader.py:1363-1368 | the deletion loop keeps exactly the entries whose keys are not among the first overflow history entries, with their values |
| ModelLoader.RunIgnoresBehind | demo/ai/model_loader.py:691-702 | a run never reads a cell behind its start |
| ModelLoader.OpportunityIgnoresProbe | demo/ai/model_loader.py:675-723 | what _check_winning_opportunity finds does not depend on the probed cell itself |
| ModelLoader.LineIgnoresProbe | demo/ai/model_loader.py:688-702 | neither run of a line through the cell reads the cell itself, so the line count is the same whatever it holds |
| ModelLoader.Snapshot | demo/ai/model_loader.py:684-685 | the board's rows as lists, cell for cell |
| ModelLoader.CountRun | demo/ai/model_loader.py:691-702 | the while loop counts the run from the cell along the direction |
| ModelLoader.CheckWinningOpportunity | demo/ai/model_loader.py:675-708 | true iff some direction has the cell plus its runs on both sides at three or more |
| ModelLoader.LineHits | demo/ai/model_loader.py:687-706 | one pass of the direction loop reports whether the cell and its runs on both sides reach three |
| ModelLoader.CheckBlockingMove | demo/ai/model_loader.py:710-723 | reports whether the opponent's piece there would make such a line, and leaves the cell holding the player's piece, so the board is unchanged exactly when it already held it |
| FallbackNarration.NormalTheme | ai/narrators/fallback_narrator.py:100-103 | a supported theme is kept, anything else becomes fantasy, and the result is always supported |
| FallbackNarration.NormalThemeIdempotent | ai/narrators/fallback_narrator.py:100-103 | setting a theme twice gives the theme of setting it once |
| FallbackNarration.FactionNames | ai/narrators/fallback_narrator.py:81-91 | the two factions always differ, and the Alpha/Omega pair is used exactly for an unsupported theme |
| FallbackNarration.PhaseFor | ai/narrators/fallback_narrator.py:122-129 | opening below six history entries, midgame below twenty, endgame from twenty |
| FallbackNarration.PhaseMonotone | ai/narrators/fallback_narrator.py:122-129 | as the history grows the inferred phase never goes back |
| FallbackNarration.SlotTable | ai/narrators/fallback_narrator.py:33-79 | two templates for each phase and supported theme |
| FallbackNarration.Templates | ai/narrators/fallback_narrator.py:135-136 | the single plain "The game continues..." exactly when the phase or theme is missing from the table; otherwise templates with a player slot |
| FallbackNarration.PlayerName | ai/narrators/fallback_narrator.py:141-147 | player 1 names the player's faction, 2 the computer's, anything else "Unknown player" |
| FallbackNarration.NarrateNamesPlayer | ai/narrators/fallback_narrator.py:108-153 | the narrative holds the player's name right after the chosen template's text before the slot, or is the plain fallback |
| FallbackNarration.KeepLast | ai/narrators/fallback_narrator.py:164-166 | the newest min(length, n) entries of the history |
| FallbackNarration.KeepLastAppend | ai/narrators/fallback_narrator.py:161-166 | trimming before or after appending gives the same history |
| FallbackNarration.FallbackNarrator.constructor | ai/narrators/fallback_narrator.py:18-31 | the theme as given (not normalised), its factions, an empty history and no last narrative |
| FallbackNarration.FallbackNarrator.SetTheme | ai/narrators/fallback_narrator.py:93-106 | the normalised theme and its factions; history and last narrative unchanged |
| FallbackNarration.FallbackNarrator.AddToHistory | ai/narrators/fallback_narrator.py:161-166 | the history becomes the newest thirty of the old history plus the narrative; nothing else changes |
| FallbackNarration.FallbackNarrator.GenerateNarrative | ai/narrators/fallback_narrator.py:108-153 | the narrative is Narrate of the theme, factions and old history length; it is appended to the history and becomes the last narrative |
| FallbackNarration.FallbackNarrator.CleanupResources | ai/narrators/fallback_narrator.py:178-186 | the history is emptied and nothing else changes |
| ContextPrompting.Count | ai/context_prompter.py:115 | list.count never exceeds the length |
| ContextPrompting.CountTwo | ai/context_prompter.py:115-133 | two different values are counted in disjoint cells |
| ContextPrompting.HitExclusive | ai/context_prompter.py:115-133 | no four-cell window is three-and-a-gap for two different players |
| ContextPrompting.RowHits | ai/context_prompter.py:112-116 | at most one hit per window start |
| ContextPrompting.RowHitsDisjoint | ai/context_prompter.py:112-134 | a row's hits for two different values together are at most its window starts |
| ContextPrompting.HitsBounded | ai/context_prompter.py:111-134 | over a board, hits for two values together are at most the horizontal windows |
| ContextPrompting.CountHits | ai/context_prompter.py:111-116 | the nested loops count exactly the windows with three of the value and one gap |
| ContextPrompting.CountRowHits | ai/context_prompter.py:112-116 | the inner loop counts exactly the windows of one row with three of the value and one gap |
| ContextPrompting.DetectThreats | ai/context_prompter.py:101-119 | the number of threats is the opponent's hit count |
| ContextPrompting.DetectOpportunities | ai/context_prompter.py:121-138 | the number of opportunities is the player's own hit count |
| ContextPrompting.ThreatsAndOpportunitiesDisjoint | ai/context_prompter.py:101-138 | threats and opportunities never share a window |
| ContextPrompting.SelectAction | ai/context_prompter.py:140-149 | a winning action whenever there is an opportunity, a blocking one for threats alone, a plain one otherwise |
| ContextPrompting.OpenColumns | ai/context_prompter.py:155-159 | exactly the columns whose top cell is empty, in increasing order |
| ContextPrompting.SuggestStrategicColumn | ai/context_prompter.py:151-161 | the open column the pick selects when there is one (so its top cell is empty), column 3 when none is |
| ContextPrompting.RowMoves | ai/context_prompter.py:64 | a row's moves are at most its cells |
| ContextPrompting.MoveCountBounds | ai/context_prompter.py:64 | the move count is at most the cell count, and zero on an empty board |
| ContextPrompting.EmptyRow | ai/context_prompter.py:64 | an empty row has no moves |
| ContextPrompting.GamePhase | ai/context_prompter.py:163-170 | opening below ten moves, midgame below twenty-five, endgame from there |
| ContextPrompting.Faction | ai/context_prompter.py:69-71 | player 1 gets the first faction, and the science-fiction names appear exactly for the theme "scifi" |
| NarrativeEngine.EvaluatePosition | game/narrative_engine.py:88-107 | +1000 when the player has four in a row, -1000 when the other side has, the engine's position score otherwise |
| NarrativeEngine.ValidColumnsLegal | game/narrative_engine.py:49 | every column get_valid_columns lists can be played |
| NarrativeEngine.Scores | game/narrative_engine.py:50-58 | one score per legal column |
| NarrativeEngine.ScoresAt | game/narrative_engine.py:52-58 | the k-th score is Player.ONE's evaluation after playing the k-th column |
| NarrativeEngine.Max | game/narrative_engine.py:61-67 | the top score: no score exceeds it and some score equals it |
| NarrativeEngine.ScoreOf | game/narrative_engine.py:68 | the next() lookup: a score exactly for a listed column, and that column's score |
| NarrativeEngine.Classify | game/narrative_engine.py:73-86 | with top at most 0: good iff the score equals top, else bad; with top positive: good iff score/top is at least 0.9, mediocre iff it lies in [0.5, 0.9), bad iff below 0.5 |
| NarrativeEngine.RatioAtLeast | game/narrative_engine.py:78-84 | for a positive top the ratio comparison equals the cross-multiplied integer comparison |
| NarrativeEngine.ClassifyMonotone | game/narrative_engine.py:73-86 | a higher-scoring move is never classified worse, and the top score is good |
| NarrativeEngine.MoveQuality | game/narrative_engine.py:64-71 | mediocre when there is no legal move or the column is not one |
| NarrativeEngine.MoveQualityOfLegal | game/narrative_engine.py:31-86 | a legal column is classified by its score against the best of all legal columns |
| NarrativeEngine.BestMoveIsGood | game/narrative_engine.py:31-86 | a column scoring at least as well as every legal column is good |
| NarrativeEngine.ScoreColumns | game/narrative_engine.py:50-58 | the loop builds exactly the score list |
| NarrativeEngine.EvaluateMove | game/narrative_engine.py:31-86 | the quality returned is MoveQuality of the game and column |
| NarrativeEngine.AfterReply | game/narrative_engine.py:284-288 | the opponent's reply on a copy, with Player.ONE put back to move, is again a consistent game |
| NarrativeEngine.WinningPaths | game/narrative_engine.py:283-294 | at most one winning path per opponent reply |
| NarrativeEngine.TrapNeedsTwoReplies | game/narrative_engine.py:273-297 | a trap needs a legal move that leaves the opponent at least two replies |
| NarrativeEngine.HasWinningMove | game/narrative_engine.py:288-294 | true iff some legal Player.ONE move then wins, stopping at the first |
| NarrativeEngine.CountWinningPaths | game/narrative_engine.py:283-294 | the loop counts exactly the replies after which Player.ONE can still win |
| NarrativeEngine.CreatesTrap | game/narrative_engine.py:268-297 | false for an illegal move; otherwise true iff at least two replies leave a Player.ONE win |
| NarrativeEngine.PromptTheme | game/narrative_engine.py:390-490 | the themes with templates are kept, anything else uses fantasy |
| NarrativeEngine.PlayerFactions | game/narrative_engine.py:381-388 | the two faction names of every theme differ |
| NarrativeEngine.FactionsSwap | game/narrative_engine.py:367-379 | faction and opponent faction differ, swap with the current player and together are the theme's pair |
| NarrativeEngine.Placeholder | game/narrative_engine.py:362 | the key wrapped in braces |
| NarrativeEngine.FormatTemplate | game/narrative_engine.py:356-365 | the loop result is `Formatted`: the template with each key's placeholder replaced in turn, which `FormattedFillsEvery` shows fills every occurrence of every known key |
| NarrativeEngine.NoBraceNoPlaceholder | game/narrative_engine.py:362-363 | text without a brace contains no placeholder |
| NarrativeEngine.FormattedPlain | game/narrative_engine.py:356-365 | text without a brace is left unchanged |
| NarrativeEngine.FormattedFillsOne | game/narrative_engine.py:356-365 | one placeholder in plain text becomes the value, the rest untouched |
| NarrativeEngine.PlaceholderNotPrefix | game/narrative_engine.py:361-363 | the placeholder of one key never matches at the start of another key's placeholder |
| NarrativeEngine.SlotReplace | game/narrative_engine.py:363 | replace fills a slot holding the key's placeholder, passes any other slot, and carries on after it |
| NarrativeEngine.PieceSlotReplace | game/narrative_engine.py:363 | brace-free text passes through replace, then the slot after it is handled as `SlotReplace` says |
| NarrativeEngine.ReplaceInterleave | game/narrative_engine.py:363 | one replace on brace-free text interleaved with slots fills exactly the slots holding that key's placeholder |
| NarrativeEngine.FillKeyIsReplace | game/narrative_engine.py:362-363 | the `in` test changes nothing: an absent placeholder is left alone by replace too |
| NarrativeEngine.FormattedInterleave | game/narrative_engine.py:356-365 | after the whole loop every slot is what the context's pairs make of it in turn, the brace-free text unchanged |
| NarrativeEngine.ResolvePlain | game/narrative_engine.py:360-363 | brace-free text is never a placeholder, so no pair changes it |
| NarrativeEngine.ResolvePlaceholder | game/narrative_engine.py:360-363 | a placeholder takes the value of its key, and stays when the context lacks the key |
| NarrativeEngine.FormattedFillsEvery | game/narrative_engine.py:356-365 | every occurrence of every key the context holds is replaced by its value, repeated keys included; other placeholders and all other text are kept |
| NarrativeEngine.FormattedRepeatedKey | game/narrative_engine.py:394-398 | a key used twice around another key, as in the fantasy templates, is filled at both places |
| UserInput.Depths | app/handlers/user_input_handler.py:89-109 | Easy, Medium and Hard give search depths within 1..5 with the thermal depth no deeper; any other string leaves both unchanged |
| UserInput.DepthsByDifficulty | app/handlers/user_input_handler.py:92-109 | a known level fixes both depths regardless of the old ones, and a harder level searches strictly deeper, thermally no shallower |
| UserInput.DepthsIdempotent | app/handlers/user_input_handler.py:89-109 | applying the same difficulty twice changes nothing more |
| UserInput.UserInputHandler.constructor | app/handlers/user_input_handler.py:11-35 | Medium and Fantasy, both as current and initial settings, unchanged flag clear, depths 3/2; the game, its outcome, the last move column and the last narrative untouched |
| UserInput.UserInputHandler.ApplyDifficulty | app/handlers/user_input_handler.py:89-109 | the controller's depths become Depths of the difficulty; the game, its outcome, the last move column and the last narrative are untouched |
| UserInput.UserInputHandler.CheckSettingsChanged | app/handlers/user_input_handler.py:82-87 | the flag holds iff the difficulty or theme differs from its initial value; the settings are untouched |
| UserInput.UserInputHandler.OnDifficultyChanged | app/handlers/user_input_handler.py:66-70 | the difficulty is recorded, the depths applied and the flag recomputed; the theme, the applied theme and the controller's game, outcome, last move column and last narrative are untouched |
| UserInput.UserInputHandler.OnThemeChanged | app/handlers/user_input_handler.py:72-76 | the theme is recorded, lower-cased for the theme controller, and the flag recomputed |
| UserInput.UserInputHandler.OnColumnSelected | app/handlers/user_input_handler.py:37-64 | ignored once the game is over; otherwise succeeds iff the move is legal, and then the move is played, its column recorded and the end check settles game over and winner; an illegal move changes nothing; depths and last narrative untouched |
| UserInput.UserInputHandler.NewGame | app/handlers/user_input_handler.py:212-252 | the current settings are applied and become the initial ones, the flag clears, and a fresh empty 6x7 game is running with no winner, no last move column and no narrative |
| ThemeManaging.ThemeDict | ui/theme_manager.py:12-63 | each theme's dictionary holds its player names, win message and draw message |
| ThemeManaging.Toggle | ui/theme_manager.py:67 | the result is a known theme and differs from a known argument |
| ThemeManaging.ToggleTwice | ui/theme_manager.py:65-69 | switching twice returns to the theme |
| ThemeManaging.CloseAt | ui/theme_manager.py:91 | the first closing brace of a field, or the end |
| ThemeManaging.FormatAfterPlain | ui/theme_manager.py:91 | str.format passes brace-free leading text through unchanged |
| ThemeManaging.FormatPlain | ui/theme_manager.py:91 | brace-free text formats to itself |
| ThemeManaging.FormatOneField | ui/theme_manager.py:91 | a single field takes its keyword's value, and a missing keyword is an error |
| ThemeManaging.FillIsFormat | ui/theme_manager.py:91 | filling a stored message equals str.format of its text |
| ThemeManaging.Message | ui/theme_manager.py:87-92 | the empty string for a key the theme lacks |
| ThemeManaging.WinMessageNamesPlayer | ui/theme_manager.py:87-92 | the win message names the given player and the theme's alignment, and fails without a player |
| ThemeManaging.FactionNamesDiffer | ui/theme_manager.py:12-63 | the two player names of a theme differ |
| ThemeManaging.ThemeManager.constructor | ui/theme_manager.py:12-16 | starts in the fantasy theme |
| ThemeManaging.ThemeManager.SwitchTheme | ui/theme_manager.py:65-69 | the theme toggles to the other one and its dictionary is returned |
| ThemeManaging.ThemeManager.GetPlayerName | ui/theme_manager.py:79-85 | 1 gives player1_name of the current theme, anything else player2_name |
| ThemeManaging.ThemeManager.FormatMessage | ui/theme_manager.py:87-92 | Message of the current theme |

## Left out

- Language models: the transformer, ONNX and Ollama loaders, model download and the generation calls are outside the model. Only the cache bookkeeping of generate_narrative's language-model branch is kept, as `ModelLoader.StoreLlmAsWritten`.
- Threads, executors and timeouts: the worker thread of generate_with_timeout and the background loading of the model loader are concurrency. `TextGeneration.GenerateWithTimeout` takes the thread's outcome as a parameter.
- Randomness: random.shuffle, random.random, random.choice and random.uniform become parameters. These are the `Draws` of the difficulty levels, the `pick` indices of the narrators and the prompter, the fluctuation `delta` of the temperature controller, and the monitor's `sample`. Every contract holds for every value these parameters can take.
- TemperatureMonitoring.TemperatureMonitor.GetTemperature: on Darwin, Linux and Windows the source returns random.uniform(40.0, 65.0), which its comments call a stand-in for a real sensor. The `sample` is left unconstrained on purpose, so the contracts also cover a real sensor. What the range as written implies, that neither is_high_temperature nor is_critical_temperature can then hold without a simulated value, is `TemperatureMonitoring.PlaceholderNeverHigh`.
- Floating point: temperatures, thresholds and the quality ratio are `real`, with no IEEE rounding. The quality ratio is compared by cross-multiplication, which `NarrativeEngine.RatioAtLeast` proves equal to the real-valued comparison.
- Sensor reads: subprocess, psutil and /sys reads are not modelled. The readings they would return are parameters: the CPU sensor groups of `ThermalAware` and the controller's actual temperature.
- Qt: signals, widgets and display updates are not modelled. This covers the theme_changed emit, board and message updates, button enabling, QTimer scheduling (_schedule_ai_move, _make_ai_move, _handle_game_over, _validate_settings) and the narrative regenerated after on_theme_changed. The theme controller's set_theme call is recorded only as the lower-cased theme it receives (`appliedTheme`).
- GameController engine: app/controllers/game_controller.py imports the row-major engine but calls find_best_move(board, 2), which only the column-major engine of demo/game/minimax.py accepts. The controller is modelled with the column-major engine for both its standard and its thermal search.
- NarrativeEngine.EvaluateMove: the call to find_best_move at game/narrative_engine.py:46 is not modelled, because its result is never read. The sort at line 61 is modelled as a maximum, because only the top score and the per-column lookup are read afterwards.
- get_move_insight, _count_threats, the narrative engine's own _check_blocking_move, _enables_future_win, generate_prompt, the template tables and GameNarrator are not modelled. They only assemble prompt text for the language model.
- ContextPrompting: create_prompt's Jinja template rendering is not modelled; its move count, faction choice, threat detection, action choice, column suggestion and phase are.
- FallbackNarration.FallbackNarrator.GenerateNarrative: the exception branch that returns a random fallback text is not modelled. Every template has at most the player field and the name is always a string, so formatting cannot raise. The prints and logging are dropped.
- ThemeManaging: str.format is modelled for named fields only. Brace escapes ({{ }}), format specs, conversions, positional and attribute fields are not modelled. Each stored message holds at most one field (`Setting`), which `FillIsFormat` ties to str.format of the message as written.
- NarrativeEngine.FormatTemplate: context values are taken as strings. str() of numbers and booleans is not modelled.
- NarrativeEngine.FormattedFillsEvery: stated for templates whose text between placeholders has no '{', for keys without braces and for values without '{'. The templates and contexts of game/narrative_engine.py are of that kind. For other text only the definition `Formatted` describes the result, because a value holding a placeholder would be filled again by a later key.
- The Z3-based methods (is_valid_state and is_draw_inevitable of game/state_validator.py, is_draw_inevitable of demo/game/state_validator.py) call an external solver and are not modelled.
- demo/game/connect_four.py, the demo/ copies of app/ and ai/, ai/narrators/base_narrator.py, ai/utils/thermal_monitor.py and ai/thermal_monitor.py duplicate modelled code or are dominated by I/O, and are not part of this model.
- Difficulty.EasyMove: when neither the win nor the random branch applies, the column is stated only to be legal. It is the engine's `Minimax.BestMove`, whose own contract states what that search returns.
- Difficulty.MediumMove: outside the win and second-best branches the column is stated only to be legal. It is `Minimax.BestMove`'s.
- Difficulty.HardMove: outside the win and block branches the column is stated only to be legal. It is `Minimax.BestMove`'s.
- Difficulty.EngineMove: states legality and the -1 case only. The level-specific rules are in the three methods it dispatches to.
- Difficulty.ComputerMove: states the game-over case, the -1 case and legality, not which level's rules chose the column.
- Text.Lower: lower-cases only the ASCII letters A-Z. Python's str.lower also maps non-ASCII letters; Unicode case mapping is not modelled, and the themes and prompts it is applied to here are ASCII.
- ModelLoader.ResponseCache: the dispatch of _load_model_worker runs on a thread and is not a method here. A caller picks LoadNpuModel, as for any model type other than local_llm, or LoadFallbackModel, as after an exception. _load_local_llm loads a language model and is not modelled. The sleeps, the is_advanced_model flag and the modelLoaded signal are dropped.
- Integer width: Python integers do not overflow, so no wrap-around is modelled.

## Findings

| source | as written | input that shows it | evidently intended | confidence | as-written member | corrected member |
|---|---|---|---|---|---|---|
| game/minimax.py:81 | after the trial move the winner is compared with Player(3 - current), the opponent of the mover, so the immediate-win shortcut never fires for a win the move itself makes (the same test is at game/difficulty_levels.py:80,157,328) | rows [[Two,Two,Two,Empty]] with Two to move: column 3 wins for Two but is not taken | take the column when the mover itself wins | not executed | Minimax.WinsNowAsWritten (WinsNowAsWrittenNeverFires, WinsNowAsWrittenMisses) | Minimax.WinsNow, used by Minimax.BestMove and Difficulty.FindWin |
| game/minimax.py:194-197 | a four of the player who just moved always scores +1000000, at maximising and minimising nodes alike | rows [[One,One,One,One]] with Two to move at a maximising node, Two being the maximiser: scored +1000000 though Two has lost | +1000000 when the maximiser owns the four, -1000000 when the other side does | not executed | Minimax.WinScoreAsWritten (WinScoreAsWrittenMisjudges) | Minimax.WinScore |
| game/difficulty_levels.py:175 | MediumAI drops a move when the reply wins for the AI's own colour instead of for the opponent | rows [[One,One,One,Empty,Empty]] with Two to move: column 4 lets One win at column 3, yet is kept | drop moves after which the opponent can win at once | not executed | Difficulty.HandsOverWinAsWritten (HandsOverWinAsWrittenNeverHolds, HandsOverWinAsWrittenMisses) | Difficulty.HandsOverWin, Difficulty.FilterLosing |
| demo/game/state_validator.py:37-43 | the gravity scan never treats index 0 of a column as a gap, so a piece above an empty bottom cell passes | a 6x7 board with ONE at index 1 of column 0 and index 0 empty | reject any piece above an empty cell | not executed | DemoValidator.IsValidStateAsWritten (FloatingPieceAccepted) | DemoValidator.IsValidState (ValidStateHasNoGap) |
| demo/game/state_validator.py:97-122 | next_moves_for_win hands the row-major board to the column-major _check_win | an empty game with 4 <= rows < cols (6x7): the call fails, or column 0 is reported as a win | test each trial board in the layout _check_win reads | not executed | DemoValidator.NextMovesAsWrittenFromAll (NextMovesAsWrittenMisreports) | DemoValidator.NextMovesForWin (NextMovesForWinSpec) |
| demo/ai/model_loader.py:1216-1217 | the language-model branch appends the response, not the prompt key, to the cache history, so eviction no longer finds the key | max_cache_size 1: a language-model store of "k1", then a prompt store of "p", leaves two cached entries | append the key, keeping cache and history in step | not executed | ModelLoader.StoreLlmAsWritten (StoreLlmAsWrittenOverflows) | ModelLoader.Store (StoreBounded, EvictSynced) |
