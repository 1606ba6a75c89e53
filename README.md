# Tic-tac-toe game logic in Dafny

This project models the game logic of the tic-tac-toe web component in `index.js`. It has two parts:

- **The win check `calculateWinner`.** It scans the eight lines of a 3x3 board in a fixed order: rows, then columns, then diagonals. It returns the mark of the first line whose three cells hold the same mark, or nothing.
- **The `GameComponent` state.** The state has three fields: the history of boards, the displayed step and whose turn it is. `setState` merges an update into that state. `handleClick` plays a move, or does nothing when the board is already won or the cell is taken. `jumpTo` moves through the history. `update` derives the status line and the move-list labels from the state.

Modules, one per concern:

- `Wrappers` (`wrappers.dfy`): the `Option` type. It stands for the source's `null` and for fields left out of a `setState` update.
- `Rules` (`rules.dfy`): marks and their strings, cells, the nine-cell `Board`, the line table and the win check. `CalculateWinner` is the source's loop with its early return. It is proved equal to the scan function `FirstWinFrom`. The lemmas then describe what that scan returns: the first winning line, and no winner exactly when no line is filled.
- `Decimal` (`decimal.dfy`): the decimal text JavaScript produces for `'Go to move #' + move`. This holds for every move index the game can reach (at most 9, by `HistoryAtMostTen`). JavaScript switches to exponent notation only from 1e21 on. It comes with the value of a digit string, and a round trip in both directions.
- `View` (`view.dfy`): the status line and the move labels. Each has a parser beside it, and round-trip lemmas prove that the text shows the winner, the next player and the move number exactly.
- `Game` (`game.dfy`): the `GameComponent` class, with fields `history`, `stepNumber` and `xIsNext`. It also holds the invariant of its state, the lemmas that the invariant holds initially and is kept by the two transitions, and two sample games: the top-row win and a rewind.

The invariant `GameInvariant` is stronger than "the step is in range". All of the following hold:

- `stepNumber < |history|`.
- `history[0]` is the empty board.
- `xIsNext` equals the parity of `stepNumber`.
- board `k` holds `(k+1)/2` X's and `k/2` O's, so exactly `k` marks.
- each board keeps every mark of the board before it.
- no board except the last has a winner.

From it the model proves two consequences. The history never holds more than ten boards. The turn can also be read off the displayed board.

The model follows the code of `index.js`. In `handleClick`, the truncated history is a local value. A click that is ignored therefore leaves the whole state unchanged, including entries after the displayed step. `HandleClick` copies the displayed board into a fresh array, as `slice()` does, and writes the mark into that copy in place. The history holds immutable snapshots.

## Model

| member | source | states |
|---|---|---|
| `Rules.CalculateWinner` | index.js:193-211 | the loop over the eight-line table with its early return yields exactly the result of the scan `Winner` |
| `Rules.LinesInScanOrder` | index.js:194-203 | the table holds the three rows top to bottom, then the three columns left to right, then the two diagonals |
| `Rules.Mover` | index.js:137 | the mark written for the player to move is the source's `xIsNext ? "X" : "O"` |
| `Rules.LineOwner` | index.js:205-206 | the non-empty-and-equal test on a line yields a mark only when that mark fills all three cells, and yields nothing only when no mark fills them |
| `Rules.WinnerIsFirstWinningLine` | index.js:204-208 | the winner is `m` iff some line is filled with `m` and no line earlier in the scan order (rows, columns, diagonals) is filled with any one mark |
| `Rules.WinnerNoneIffNoLine` | index.js:194-210 | there is no winner iff no line has its three cells filled with the same mark, in both directions |
| `Rules.FirstWinFrom` | index.js:204-210 | the scan from line `k` (with `Rules.Winner` the scan from line 0): when it returns nothing, no line from `k` on is filled with one mark |
| `Rules.FirstWinFromSome` | index.js:204-208 | the scan started at line `k` returns `m` iff a later line is won by `m` with no owned line between |
| `Rules.FirstWinFromNone` | index.js:204-210 | the scan started at line `k` returns nothing iff no line from `k` on is owned |
| `Rules.EmptyBoardHasNoWinner` | index.js:193-211 | the empty board of game start (`Array(9).fill(null)`) has no winner |
| `Decimal.NatToString` | index.js:163 | the text of a move number is a non-empty digit run without a leading zero and denotes that number |
| `Decimal.NatToStringOfValue` | index.js:163 | every such digit run is the printed form of its own value, so printing is a bijection onto canonical digit runs |
| `Decimal.LeadingDigitPositive` | index.js:163 | a canonical digit run whose first digit is not '0' denotes a positive number |
| `View.StatusLine` | index.js:176-181 | the status line reads back as "winner `w`" when there is a winner, and otherwise as "next player X" or "next player O" according to `xIsNext` |
| `View.MoveLabel` | index.js:162-164 | the label is "Go to game start" exactly for move 0; any other move gets "Go to move #" followed by canonical decimal digits that denote the move |
| `View.MoveLabelRoundTrip` | index.js:162-164 | the label of move 0 ("Go to game start") and of move `m > 0` ("Go to move #m") read back as that move |
| `View.MoveLabelsDistinct` | index.js:161-164 | two different moves never get the same label |
| `View.MoveList` | index.js:161-174 | the move list has one label per history entry, and the label at position `move` reads back as `move`, the step its button jumps to |
| `Game.CountUpdate` | index.js:137 | writing a cell changes the count of a value by its removal and its addition only |
| `Game.MarksFitBoard` | index.js:94 | a board holds no more marks than it has cells |
| `Game.InitialStateValid` | index.js:91-99 | the initial state (only the empty board, step 0, X to move) satisfies the invariant |
| `Game.HistoryPrefixValid` | index.js:131 | cutting a valid history back to its first `n` entries keeps it valid |
| `Game.HistoryPushValid` | index.js:137-146 | appending the last board with the next player's mark on an empty cell keeps the history valid, provided the last board has no winner |
| `Game.HistoryAtMostTen` | index.js:130-146 | a valid history never holds more than ten boards |
| `Game.TurnFromBoard` | index.js:145 | under the invariant, X is next exactly when the displayed board holds as many X's as O's |
| `Game.GameComponent.constructor` | index.js:89-99 | the component starts with history `[empty board]`, step 0 and X to move, and the invariant holds |
| `Game.GameComponent.SetState` | index.js:125-128 | each field named in the update takes the new value and every other field keeps its old one |
| `Game.GameComponent.HandleClick` | index.js:130-147 | keeps the invariant; leaves the whole state unchanged when the displayed board has a winner or cell `i` is taken; otherwise the history becomes `history[..stepNumber+1]` plus the displayed board with the mover's mark at `i`, the step advances by one to the new last entry and the turn flips |
| `Game.GameComponent.JumpTo` | index.js:149-154 | keeps the invariant; the history is unchanged, the step becomes `step` and X is next exactly when `step` is even |
| `Game.GameComponent.Update` | index.js:156-181 | renders the displayed board, the status line for that board's winner and the next player, and the move list of the history |
| `Game.SampleOpeningHasNoWinner` | index.js:193-211 | the four boards of the sample opening (moves 0, 4, 1, 3) have no winner |
| `Game.SampleFirstMoves` | index.js:130-147 | clicks at 0 and 4 from the initial state give X at 0 and O at 4, at step 2 |
| `Game.SampleOpening` | index.js:130-147 | two further clicks at 1 and 3 give the top-row threat at step 4 |

`Game.TopRowScenario` and `Game.RewindScenario` are clients without contracts. In the first, X completes the top row, the status line reads "Winner: X" and a further click is ignored. In the second, the player jumps back to game start. The board shown is then empty with X to move, and the next click discards the rewound entries.

## Left out

- Shadow-DOM setup, HTML and CSS templates, and `customElements.define` registrations (index.js:1-24, 37, 39-69, 86, 100-121, 191). These set up presentation only.
- `SquareComponent` and `BoardComponent` (index.js:1-86). They only copy `squares[i]` into buttons and bind click handlers to cell indices.
- The DOM side of `update`: building fragments, assigning `innerHTML`, `replaceChildren` and binding the click closures (index.js:165-173, 182-187). `Update` returns the board, the status text and the labels instead.
- The re-render that `setState` and the constructor trigger (index.js:122, 127). `SetState` models only the merge of fields.
- JavaScript's truthiness on arbitrary values. A cell is `Empty` or `Filled` with a mark (`X` or `O`). This two-level type differs from the source's flat `null`/`"X"`/`"O"` cell, and keeps the winner's type free of `Empty`. A board always has nine cells.
- Out-of-range `i` or `step`. Here they are preconditions: `i < 9` for `HandleClick` and `step < |history|` for `JumpTo`. The source does not stop there. With `i >= 9`, `squares[i]` is `undefined`, which counts as false. `handleClick` then writes past the end (index.js:137) and appends a board longer than nine cells. With `step >= history.length`, `update` throws at index.js:159, because `current` is `undefined`.
- `Rules.FirstWinFrom`: its own contract states only the no-winner direction. What a returned mark means is stated by the lemmas `Rules.FirstWinFromSome` and `Rules.WinnerIsFirstWinningLine`. As a function contract, the existential would be assumed at every use of the win check, which makes every proof about the game state costlier.
- Event dispatch and the single-threaded ordering of clicks. Each method call is one event.
