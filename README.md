# Score4 component: a Dafny model

This project models `src/components/score4.tsx`, the React component of a
Connect-Four-style game ("Score4") in which a human (green disks, code `-1`)
plays a CPU (red disks, code `1`). The component also holds some game logic
of its own, and that logic is what is modelled:

- gravity placement of a disk in a column (`dropDisk`);
- building the opening board (`reset`);
- the click guard (`handleClick`, `gameOver`);
- the end-of-game tally (`checkEndGame`);
- the difficulty buttons (`dumber`, `smarter`);
- the cell-code-to-CSS-class switch (`cellMaker`);
- the tally text (`proclaim`).

The rules engine and search (`score4_AI.ts`, holding `CheckWinner`,
`minimax`, `dropDiskMutate`, `defaultDepth` and the board dimensions) is not
part of this model. Its constants enter as constructor parameters of
`Score4Game.Score4` (`height`, `width`, `defaultDepth`). What `CheckWinner`
reports enters as a `CheckResult` value passed to `CheckEndGame` and
`HandleClick`.

Files:

- `board.dfy`, module `Board`: the board as a value (`seq<seq<int>>`, row 0
  at the top). It defines the placement rule (`LowestEmpty`, `Drop`), the
  opening board (`InitialBoard`) and the gravity invariant (`Settled`).
- `display.dfy`, module `Display`: the five cell states behind the signed
  codes (±1 a disk, ±4 a disk of a winning run, 0 empty). It also defines
  their CSS classes, the decimal numeral of a count and the tally text.
- `score4.dfy`, module `Score4Game`: the component as a class.
  - The board is an `array<array<int>>`, an outer array of row arrays, as in
    the source. This lets the model state the aliasing of `dropDisk` exactly.
  - The other state fields are `info`, `wins`, `losses`, `brainDepth` and
    `canClick`.
  - The board methods are proved against the functions of `Board`
    (`Drop`, `DropOrKeep`, `InitialBoard`). `CheckEndGame`, `Dumber` and
    `Smarter` are proved against `Record`, `DumberDepth` and `SmarterDepth`
    of `Score4Game`.
  - The disk codes are named once, in `Board` (`Human`, `Cpu`, `HumanWon`,
    `CpuWon`). `Display.Code` and the tally both use these names.

`dropDisk` does not copy the board. `newBoard` is the array it was given. The
method writes a fresh copy of the affected row into that same outer array and
returns it. So the caller's `state.board` changes in place. Row `r` becomes a
new object, and the old row object is left untouched. Every other row keeps
its reference. `DropDisk`'s contract states each of these facts.

A JavaScript read past the end of a row (`board[row][column]` with an
out-of-range `column`) gives `undefined`, and `undefined` is not `=== 0`. The
model therefore treats such a cell as not empty, and `DropDisk` returns null
for an out-of-range column instead of requiring a valid one.

## Model

| member | source | states |
|---|---|---|
| `Board.ScanUp` | src/components/score4.tsx:49-56 | the downward-index scan returns the first empty row at or above `row` with no empty row between, and None exactly when rows 0..row are all non-empty |
| `Board.LowestEmpty` | src/components/score4.tsx:49-50 | the row chosen is the largest row index whose cell in `column` is 0; None exactly when the column is full |
| `Board.Drop` | src/components/score4.tsx:47-58 | None exactly when the column is full; otherwise the board has the same shape, `color` sits at the lowest empty row of `column`, and every other cell is unchanged |
| `Board.DropOrKeep` | src/components/score4.tsx:94-98 | the board a click leaves behind keeps its shape; it is the old board when the column is full, and otherwise holds `color` at the lowest empty cell with every other cell unchanged |
| `Board.DropKeepsSettled` | src/components/score4.tsx:49-54 | placing a non-zero disk at the lowest empty cell keeps the gravity invariant (no disk above an empty cell) |
| `Board.InitialBoard` | src/components/score4.tsx:127-137 | `height` rows of `width` cells, all 0 except a CPU disk (1) at the bottom row, column `floor(width/2)` |
| `Board.InitialBoardSettled` | src/components/score4.tsx:135-137 | the opening board satisfies gravity; every other column's first drop lands on the bottom row, and the middle column's lands on the row above (or the column is full when height is 1) |
| `Score4Game.Score4.NewBoard` | src/components/score4.tsx:127-137 | builds a fresh outer array of `height` fresh, pairwise distinct rows whose cells are exactly `InitialBoard` |
| `Score4Game.Score4.Reset` | src/components/score4.tsx:124-140 | a fresh board equal to `InitialBoard` and settled under gravity, the opening message, `canClick` true; wins, losses and depth kept |
| `Score4Game.Score4.constructor` | src/components/score4.tsx:22-31 | the reset state (a settled board equal to `InitialBoard`) with zero wins and losses and the depth set to `defaultDepth` |
| `Score4Game.Score4.DropDisk` | src/components/score4.tsx:47-58 | null exactly when the column is full; otherwise returns the same outer array; the new cells are `Drop` of the old ones; the chosen row is a fresh array, every other row keeps its reference, no old row object is modified |
| `Score4Game.Record` | src/components/score4.tsx:72-76 | wins go up exactly when the game is over with winner `HumanWon` (-4), losses exactly when it is over with winner `CpuWon` (4), at most one of them by one, neither otherwise |
| `Score4Game.Score4.CheckEndGame` | src/components/score4.tsx:64-87 | returns `allDone`; the tally becomes `Record`; when over, the message is the game-over text and clicks are disabled; otherwise the caller's message and click flag; the board becomes the caller's |
| `Score4Game.Score4.HandleClick` | src/components/score4.tsx:89-103 | with clicks disabled or the game over, nothing changes and no CPU move is due; otherwise the same board array now holds the human's -1 disk by `Drop` (or is unchanged for a full column), the tally is recorded, clicks are disabled, the CPU move is due exactly when the game goes on, and gravity is kept |
| `Score4Game.DumberDepth` | src/components/score4.tsx:148-153 | one ply less exactly when the depth is above 2, otherwise unchanged; keeps the reachable depth range |
| `Score4Game.SmarterDepth` | src/components/score4.tsx:154-159 | one ply more exactly when the depth is below `defaultDepth + 1`, otherwise unchanged; keeps the reachable depth range |
| `Score4Game.DepthBounds` | src/components/score4.tsx:148-159 | with `defaultDepth >= 2`, both buttons keep the depth within [2, defaultDepth + 1] |
| `Score4Game.Score4.Dumber` | src/components/score4.tsx:148-153 | the depth becomes `DumberDepth` of the old one and stays in range |
| `Score4Game.Score4.Smarter` | src/components/score4.tsx:154-159 | the depth becomes `SmarterDepth` of the old one and stays in range |
| `Display.Code` | src/components/score4.tsx:170-176 | the signed-magnitude encoding: 0 exactly for an empty cell, positive exactly for the CPU's disks, negative exactly for the human's, magnitude 4 exactly for winning-run disks |
| `Display.CellClass` | src/components/score4.tsx:170-176 | the class of each cell code agrees with the class of its cell state; "no_coin" exactly for codes other than 4, 1, -1, -4 |
| `Display.Decimal` | src/components/score4.tsx:184 | `String(n)` is a non-empty string of digits, without a leading zero unless n is 0, one digit exactly for n < 10 |
| `Display.DecimalRoundTrip` | src/components/score4.tsx:184 | the numeral reads back as n |
| `Display.DecimalInjective` | src/components/score4.tsx:184 | distinct counts give distinct numerals |
| `Display.Proclaim` | src/components/score4.tsx:183-184 | the text starts with the numeral of n, followed by " victory." exactly when n is 1 and " victories." otherwise |

`Score4Game.Score4.GameOver` models `gameOver()` (src/components/score4.tsx:60-62).
It is a predicate without a contract of its own. Its contract is the guard
clause of `HandleClick`: when `!canClick` or `GameOver()` held before the
click, nothing changes and no CPU move is due.

## Left out

- `playMove` (src/components/score4.tsx:105-122): it runs `minimax` and `dropDiskMutate` from `score4_AI.ts`, which is not part of this model. So the CPU's move and the re-enabling of clicks after it are not modelled.
- `CheckWinner`'s marking of winning cells with ±4 is not modelled. That engine code is not part of this model. `CheckEndGame` and `HandleClick` take its report as an input, and the board is left as the drop made it.
- `this.brain.board = newBoard` (src/components/score4.tsx:95): the engine object is not modelled.
- Score4Game.Score4.HandleClick: on a full column the model assumes that `CheckWinner` returns normally. At that point the engine's board is `null` (src/components/score4.tsx:57, 95, 71). score4.tsx alone does not settle this: `CheckWinner` and `minimax` live in `score4_AI.ts`, which this model does not cover. Under the assumption, the click leaves the cells as they were. Clicks are disabled, the message becomes "Thinking, please wait...", and the turn passes to the CPU. If `CheckWinner` dereferenced the null board instead, the click would throw and `canClick` would stay true. The model does not capture that outcome.
- The engine's `height` and `width` are taken to be at least 1 (the `requires` of `InitialBoard`, `NewBoard` and the constructor). With height 0, `reset` would index `board[-1]` at src/components/score4.tsx:137 and fail. With width 0 it would not fail: the bottom row would become `[1]`. That case is not modelled.
- `setState` is modelled as an immediate assignment. React's deferred, merged state updates and re-rendering are not modelled.
- Rendering, JSX markup, `range`, `showComponent` and `React.render` are presentation only.
- The viewport size, resize listeners and `window.onload` are DOM I/O.
- `setTimeout` and the `Date` timing of the CPU message are clocks and scheduling; they use floating-point seconds. `HandleClick` reports only whether the CPU move is due.
