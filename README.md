# Minesweeper rules engine in Dafny

This project models the rules engine of a WPF Minesweeper game: the class
`MinesGrid` and the per-cell class `Plate`, written in C#.

`MinesGrid` owns a `Width` × `Height` board of plates. It also owns:
- the counters `correctFlags` and `wrongFlags`, for flags on mined and on safe plates;
- the elapsed-time counter `TimeElapsed`;
- a game timer.

Each `Plate` knows whether it is mined, flagged and revealed. Its `Check`
method reveals the plate and counts the mines among its eight neighbours.
When that count is zero, it opens every neighbour through `MinesGrid.OpenPlate`.
This is the flood fill that uncovers an empty region.

The model is one Dafny class, `Minesweeper.MinesGrid` (mines_grid.dfy):
- Three `array2<bool>` fields, `mined`, `flagged` and `revealed`, hold the three fields of every plate.
- The fields are null until `Run` lays out a board, as the `plates` matrix is in the source.
- Ghost sets `Mined`, `Flagged` and `Revealed` give the same information as sets of positions.
- Ghost sets `CorrectlyFlagged` and `WronglyFlagged` split the flags in two.
- `Valid()` ties the matrices to the sets, and ties each counter to the size of its part of the flags.
- The timer is the boolean `running`, with `Stop` and `Tick`; only a running timer ticks.

`Plate.Check` on the plate at `(row, col)` becomes `MinesGrid.Check(row, col)`:
- Its first loop is `CountMines`.
- Its second loop is `OpenNeighbours`.
- `Check`, `OpenNeighbours`, `OpenStep`, `OpenPlate` and `RevealPlate` call one another recursively.
- Termination: the recursion decreases on the set of unrevealed plates of the board.

In the source, `OpenPlate` raises the `ClickPlate` event, and the window handles it:
- a flagged plate is left alone;
- a mined plate ends the game by stopping the timer;
- any other plate is passed to `RevealPlate`.

The model calls that logic directly.

Module `Neighbourhood` (neighbourhood.dfy) holds the geometry of the scan:
- step `i` of the 3-by-3 scan visits `(row + i / 3 - 1, col + i % 3 - 1)`;
- the count it computes;
- the three properties of a flood fill: it reveals no flagged plate and no mined plate other than its start; it expands every zero-count plate it reveals; every plate it reveals is reached from its start along a path of revealed zero-count plates, so it never jumps past a plate it left closed.

Module `Board` (board.dfy) holds positions, the set of a board's plates, and the counting facts the flag bookkeeping needs.

## Model

| member | source | states |
|---|---|---|
| Minesweeper.MinesGrid.constructor | Minesweeper.WPF/MinesGrid.cs:26-31 | A new game keeps its width, height and mine count, has no plates yet, zero counters and a stopped timer |
| Minesweeper.MinesGrid.IsInGrid | Minesweeper.WPF/MinesGrid.cs:33-36 | True exactly for the positions of the board, rows bounded by `Width` and columns by `Height` |
| Minesweeper.MinesGrid.IsBomb | Minesweeper.WPF/MinesGrid.cs:39-46 | True exactly when the position holds a mined plate; false everywhere off the board |
| Minesweeper.MinesGrid.IsFlagged | Minesweeper.WPF/MinesGrid.cs:49-56 | True exactly when the position holds a flagged plate; false everywhere off the board |
| Minesweeper.MinesGrid.FlaggedMines | Minesweeper.WPF/MinesGrid.cs:22 | `correctFlags + wrongFlags` is the number of flagged plates |
| Minesweeper.MinesGrid.RevealPlate | Minesweeper.WPF/MinesGrid.cs:59-68 | Off the board: a failure, and nothing changes. On the board: returns Check's count, keeps the board valid, reveals only safe unflagged plates besides the start, expands every zero-count plate it reveals, reaches every plate it reveals from the start through revealed zero-count plates, and leaves the timer running exactly when it was running and the game is not won |
| Minesweeper.MinesGrid.FlagMine | Minesweeper.WPF/MinesGrid.cs:71-106 | Off the board: a failure, and no flag, counter or timer changes. On the board: toggles that one flag, moves one of the two counters by one according to whether the plate is mined, keeps the counters equal to the flags on mined and on safe plates, and stops the timer exactly when the game is won |
| Minesweeper.MinesGrid.ToggleFlag | Minesweeper.WPF/MinesGrid.cs:78-103 | The on-board part of FlagMine: the new flags, the counter deltas, validity and the win check |
| Minesweeper.MinesGrid.RecountFlag | Minesweeper.WPF/MinesGrid.cs:78-100 | The four-way counter update leaves the counters equal to the sizes of the two parts of the toggled flags |
| Minesweeper.MinesGrid.FlagMineTwice | Minesweeper.WPF/MinesGrid.cs:71-102 | Flagging the same position twice restores the flags and both counters |
| Minesweeper.MinesGrid.OpenPlate | Minesweeper.WPF/MinesGrid.cs:109-117 | Off the board, or on a revealed or flagged plate, nothing changes. A mined plate stops the timer and reveals nothing. A safe plate on the board ends up revealed, and its fill reveals only safe unflagged plates, expands every zero-count plate it reveals, and reaches every plate it reveals from that plate through revealed zero-count plates |
| Minesweeper.MinesGrid.CheckFinish | Minesweeper.WPF/MinesGrid.cs:120-140 | The timer is left running exactly when it was running and the game is not won: no wrong flag, as many flags as mines, every safe plate revealed |
| Minesweeper.MinesGrid.SafePlatesRevealed | Minesweeper.WPF/MinesGrid.cs:122-133 | The scan with `break` answers true exactly when every unmined plate of the board is revealed |
| Minesweeper.MinesGrid.FinishedFlagsAreMines | Minesweeper.WPF/MinesGrid.cs:123-138 | In a won game the flags are exactly the mines |
| Minesweeper.MinesGrid.Run | Minesweeper.WPF/MinesGrid.cs:143-181 | On a grid not run before: a new valid board with no flag and no revealed plate, exactly `Mines` distinct mined plates on the board (none when `Mines` is negative), zero counters and elapsed time, and a running timer |
| Minesweeper.MinesGrid.ResetCounters | Minesweeper.WPF/MinesGrid.cs:145-147 | Both flag counters and the elapsed time are zero, and no plate counts as correctly or wrongly flagged |
| Minesweeper.MinesGrid.SetPlates | Minesweeper.WPF/MinesGrid.cs:149-156 | The new matrices become the board's plates: the mined plates are the placed ones, and no plate is flagged or revealed |
| Minesweeper.MinesGrid.NewBoard | Minesweeper.WPF/MinesGrid.cs:149-175 | Three fresh distinct `Width` × `Height` matrices: flags and reveals all false, and exactly `count` mines on the board |
| Minesweeper.MinesGrid.ClearedMatrix | Minesweeper.WPF/MinesGrid.cs:149-158 | The nested loops leave a fresh matrix with no entry set |
| Minesweeper.MinesGrid.PlaceMines | Minesweeper.WPF/MinesGrid.cs:160-175 | The placement loop adds one mine on a free plate per round until `count` distinct plates are mined |
| Minesweeper.MinesGrid.Stop | Minesweeper.WPF/MinesGrid.cs:184-187 | The timer is stopped, whatever its state before |
| Minesweeper.MinesGrid.Tick | Minesweeper.WPF/MinesGrid.cs:200-208 | Only a running timer ticks; each tick raises the elapsed time by one, wrapping from the largest 32-bit `int` to the smallest |
| Minesweeper.MinesGrid.Check | Minesweeper.WPF/Plate.cs:26-51 | On a revealed or flagged plate: returns 0 and changes nothing. Otherwise: the plate is revealed, the result is the number of mined neighbours (at most 8), plates are only ever revealed, the fill reveals only safe unflagged plates besides the start, expands every zero-count plate it reveals, and reaches every plate it reveals from the start along a path of revealed zero-count plates |
| Minesweeper.MinesGrid.Uncover | Minesweeper.WPF/Plate.cs:32 | Exactly the one plate is added to the revealed plates, and the board stays valid |
| Minesweeper.MinesGrid.CountMines | Minesweeper.WPF/Plate.cs:34-38 | The count is the number of mined plates adjacent to the plate, at most 8, and is zero exactly when no neighbour is mined |
| Minesweeper.MinesGrid.OpenNeighbours | Minesweeper.WPF/Plate.cs:40-47 | Every board neighbour of the zero-count plate ends up revealed or flagged, and the fill from the plate keeps its three properties |
| Minesweeper.MinesGrid.OpenStep | Minesweeper.WPF/Plate.cs:42-46 | One turn of that loop: the neighbour at step `i` ends up revealed or flagged, and the three fill properties are kept |
| Neighbourhood.StepsAreNeighbours | Minesweeper.WPF/Plate.cs:34-37 | The eight steps other than 4 visit exactly the eight plates adjacent to the centre, and each adjacent plate is visited at one step |
| Neighbourhood.MinesAround | Minesweeper.WPF/Plate.cs:34-38 | The counter after `k` turns is at most the number of steps taken, and is zero exactly when none of those steps found a mine |
| Neighbourhood.FoundBeforeCount | Minesweeper.WPF/Plate.cs:34-38 | The counter after `k` turns is the number of distinct mined plates those steps visited |
| Neighbourhood.MinesAroundCountsNeighbours | Minesweeper.WPF/Plate.cs:34-38 | The full count is the number of mined plates adjacent to the centre, and is at most 8 |
| Neighbourhood.ZeroCount | Minesweeper.WPF/Plate.cs:40 | The count is zero exactly when no adjacent plate is mined |
| Neighbourhood.FloodStep | Minesweeper.WPF/Plate.cs:42-46 | Opening one more neighbour keeps the three fill properties of the fill from the centre |
| Neighbourhood.FillStopsAtClosedColumn | Minesweeper.WPF/Plate.cs:40-47 | A fill that starts left of a column it leaves closed reveals only plates left of that column |
| Neighbourhood.FloodDone | Minesweeper.WPF/Plate.cs:40-47 | Once every neighbour is revealed or flagged, the centre itself counts as expanded |
| Board.Cells | Minesweeper.WPF/MinesGrid.cs:33-36 | A position is a plate of the board exactly when IsInGrid accepts it |
| Board.CellsCount | Minesweeper.WPF/MinesGrid.cs:149 | A `Width` × `Height` board has `Width * Height` plates |
| Board.FreeCellExists | Minesweeper.WPF/MinesGrid.cs:163-175 | While fewer mines than plates are placed, some plate of the board is free, so the placement loop can go on |
| Board.ToggleTwice | Minesweeper.WPF/MinesGrid.cs:102 | Toggling a flag twice restores the flags |
| Board.FlagsAreMines | Minesweeper.WPF/MinesGrid.cs:123 | No wrong flag and as many correct flags as mines means the flags are the mines |

## Left out

- The window: rendering, menus, `MessageBox` dialogs and button-name parsing are not modelled. From Minesweeper.WPF/MainWindow.xaml.cs the model keeps only what its `ClickPlate` handler does to the board.
- Minesweeper.MinesGrid.OpenPlate: on a mined plate the model only stops the timer. The window also re-clicks every enabled button, revealing the rest of the board, and shows the loss message. A flood fill never takes this branch, because every neighbour of a zero-count plate is safe.
- The events `CounterChanged`, `TimerThresholdReached` and `ClickPlate`, with their delegates, are not modelled. The `DispatcherTimer` is the `running` flag, and each of its ticks is a call to `Tick`, which requires `running` because a timer delivers ticks only between `Start` and `Stop`.
- Minesweeper.MinesGrid.CheckFinish: the win message at Minesweeper.WPF/MinesGrid.cs:134 is not modelled. As written it is shown whenever there is no wrong flag and there are as many flags as mines, even while safe plates are still hidden. The model's win signal is the timer stop.
- Minesweeper.MinesGrid.PlaceMines: `System.Random` is replaced by a nondeterministic choice of a free plate. Only "exactly `count` distinct mines on the board" is stated, not the distribution. Random draws that land on a mined plate change nothing in the source, so the model skips them.
- Minesweeper.MinesGrid.Run: requires `0 <= Width`, `0 <= Height` and `Mines <= Width * Height`. With a negative size the source's array allocation throws. With more mines than plates on a board of at least one plate, its placement loop never ends. On a board with no plates and a positive `Mines`, `Random.Next(0)` returns 0, so the first draw indexes outside the plate matrix at Minesweeper.WPF/MinesGrid.cs:168 and throws.
- Minesweeper.MinesGrid.Run: requires a grid that has not been run yet, as the window builds a new grid for every game (Minesweeper.WPF/MainWindow.xaml.cs:40, 57). Run a second time, the source starts a second `DispatcherTimer` and leaves the first one ticking, so the time would advance twice per second and `Stop` would halt only the newer timer. One `running` flag cannot represent two timers.
- Minesweeper.MinesGrid.IsBomb: requires a board laid out by `Run`, as do IsFlagged, RevealPlate, FlagMine, OpenPlate and CheckFinish. Before `Run` the source behaves as follows:
  - IsBomb and IsFlagged answer false off the board and throw a null-reference exception on it.
  - RevealPlate and FlagMine throw `MinesweeperException` off the board (Minesweeper.WPF/MinesGrid.cs:67, 75) and a null-reference exception on it.
  - OpenPlate does nothing off the board and throws a null-reference exception on it.
  - CheckFinish throws a null-reference exception when `Mines` is 0, since its scan then reads the missing plates. Otherwise it does nothing.
- Minesweeper.MinesGrid.Stop: before `Run` the source has no timer and throws. The model simply stops its `running` flag.
- `correctFlags` and `wrongFlags` are unbounded integers. They never exceed the number of plates, so 32-bit overflow cannot occur.
- A `Plate`'s `GameGrid`, `RowPosition` and `ColPosition` are not separate objects in the model. A plate is its position in the three matrices.
- The source methods are split into helpers in the model. `ToggleFlag` and `RecountFlag` come from FlagMine. `ResetCounters`, `NewBoard`, `ClearedMatrix`, `PlaceMines` and `SetPlates` come from Run. `Uncover`, `CountMines`, `OpenNeighbours` and `OpenStep` come from Check. `SafePlatesRevealed` comes from CheckFinish. Each helper does one part of its source method, in the source's order.
