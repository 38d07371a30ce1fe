# Tic Tac Toe engine, modelled in Dafny

This project models the game logic of a browser Tic Tac Toe widget. The logic
lives in `frontend_react/src/App.js`. A board is nine squares, each empty
(`null` in the JavaScript), `X` or `O`, indexed row by row from 0 to 8. The
component keeps the board and a flag `isXNext`, and it has two transitions:

- a click on a square writes the mover's mark there and passes the turn;
- the restart button brings back nine empty squares with X to move.

Winner detection scans eight fixed lines in a fixed order. The status line
shows the winner, else a draw, else whose turn it is.

Files:

- `engine.dfy` (module `Engine`): cells, the board, the eight lines, the winner
  as a specification function (`WinnerFrom`, `Winner`), the scanning loop of
  `calculateWinner` as a method (`CalculateWinner`), the draw test, the game
  state as a value, the click and restart transitions as functions, and the
  status text.
- `reachability.dfy` (module `Reachability`): the invariant of every state the
  game can reach through clicks and restarts, and what follows from it.
- `game.dfy` (module `App`): the component state as a class whose two fields
  the click and restart methods update in place. Each method is proved to
  agree with the transition function of `Engine` and to keep the invariant.
- `scenarios.dfy` (module `Scenarios`): concrete games played through the
  model.

## Model

| member | source | states |
|---|---|---|
| Engine.LinesInScanOrder | frontend_react/src/App.js:22-26 | the eight scanned lines are the three rows, the three columns and the two diagonals, in that order, with no line listed twice |
| Engine.Uniform | frontend_react/src/App.js:28 | the per-line test holds exactly when the three squares are all X or all O |
| Engine.WinnerFrom | frontend_react/src/App.js:27-32 | the scan from line k on yields a mark exactly when some later line is uniform, and then it is the mark of the first uniform line |
| Engine.Winner | frontend_react/src/App.js:11-33 | the winner is non-empty iff some line is filled with one mark; it is then the mark of the first such line in the order rows, columns, diagonals; `Empty` (null) iff neither X nor O owns a line |
| Engine.CalculateWinner | frontend_react/src/App.js:27-32 | the loop with early return yields the specified winner: a mark of a uniform line, or `Empty` when no line is uniform |
| Engine.IsDraw | frontend_react/src/App.js:40-42 | a draw is exactly a full board with no uniform line; a full board on which X or O owns a line is not a draw |
| Engine.Mark | frontend_react/src/App.js:70 | the mark written is X exactly when X is to move, and never empty |
| Engine.InitialState | frontend_react/src/App.js:47-48 | the initial state has nine empty squares, X to move, no winner and no draw |
| Engine.Accepts | frontend_react/src/App.js:65 | a click is taken exactly when the clicked square is empty and neither X nor O owns a line |
| Engine.Click | frontend_react/src/App.js:64-74 | a click on a filled square or after a win changes nothing; otherwise it writes the mover's mark into that square, keeps the other eight and flips the turn; the state changes iff the click is accepted |
| Engine.DecidedIffNoMoveAccepted | frontend_react/src/App.js:64-67 | for every state, reachable or not, the game is decided (won or drawn) iff every click leaves the state unchanged: once won or drawn, every further click is a no-op |
| Engine.Symbol | frontend_react/src/App.js:83-86 | the text of a mark is the single letter "X" for X and "O" for O |
| Engine.StatusText | frontend_react/src/App.js:82-86 | the text is "X wins!" / "O wins!" iff that mark is the winner, "Draw" iff the board is a draw, "Turn: X" / "Turn: O" iff the game is undecided and that player is to move |
| App.Game.constructor | frontend_react/src/App.js:47-48 | a new game has nine empty squares and X to move, and satisfies the reachability invariant |
| App.Game.HandleSquareClick | frontend_react/src/App.js:64-74 | a rejected click leaves both fields unchanged; an accepted one sets the clicked square to the mover's mark, keeps the other squares and negates `isXNext`; the new state is `Click` of the old one and the invariant is kept |
| App.Game.Restart | frontend_react/src/App.js:77-80 | whatever the prior state, the fields become nine empty squares and X to move, equal to the initial state |
| Reachability.RestartEstablishesInvariant | frontend_react/src/App.js:77-80 | the state after a restart (and at start) satisfies the invariant |
| Reachability.NewLinesBelongToMover | frontend_react/src/App.js:68-71 | on a board with no winner, filling one square with a mark can only create lines of that mark |
| Reachability.ClickPreservesInvariant | frontend_react/src/App.js:64-74 | every click keeps the invariant: count(X) − count(O) is 0 when X is to move and 1 otherwise, and only the last mover owns a line |
| Reachability.PlayPreservesInvariant | frontend_react/src/App.js:64-80 | any sequence of clicks and restarts keeps the invariant |
| Reachability.ReachableStatesAreValid | frontend_react/src/App.js:47-80 | every state reachable from the start satisfies the invariant |
| Reachability.ClickAddsOneMark | frontend_react/src/App.js:68-73 | an accepted click adds exactly one mark to the board and a rejected one adds none |
| Reachability.TurnParity | frontend_react/src/App.js:73 | in a reachable state X is to move iff an even number of marks is on the board, so the turn alternates strictly |
| Reachability.WinnerMovedLast | frontend_react/src/App.js:64-73 | in a reachable state the winner is the player who moved last, and X and O never both own a line, so the scan order never changes the reported winner in play |
| Reachability.FullBoardCounts | frontend_react/src/App.js:40-42 | a full reachable board holds five X and four O with O to move |
| Scenarios.FreshGameStatus | frontend_react/src/App.js:82-86 | a fresh game shows "Turn: X" |
| Scenarios.TopRowWin | frontend_react/src/App.js:64-86 | clicks 0, 4, 1, 5, 2 give X the top row, the status "X wins!", and a later click on square 3 is ignored |
| Scenarios.FullBoardWonOnLastMove | frontend_react/src/App.js:64-86 | clicks 0, 1, 2, 3, 4, 6, 5, 7, 8 fill the board but X completes column 2-5-8 and diagonal 0-4-8 on the last click: "X wins!", not a draw |
| Scenarios.DrawGame | frontend_react/src/App.js:64-86 | clicks 0, 1, 2, 4, 3, 5, 7, 6, 8 fill the board with no line: "Draw" |
| Scenarios.FirstListedLineDecides | frontend_react/src/App.js:22-29 | with the top row all X and the bottom row all O, the winner is X, the owner of the line listed first |

Notes on the model:

- The game state is modelled twice, on purpose. `Engine.State` with `Click`
  and `InitialState` is the value-level specification. `App.Game` is the
  mutable component, and its methods are proved against that specification.
- A square's truthiness in JavaScript (`squares[a]`, `cell => cell`,
  `squares[index]`) is "the square is not `Empty`".
- The click sequence 0, 1, 2, 3, 4, 6, 5, 7, 8 fills the board but ends in a
  win for X on the ninth click (column 2-5-8 and diagonal 0-4-8), not a
  draw; `Scenarios.FullBoardWonOnLastMove` proves it. `Scenarios.DrawGame`
  plays a sequence that ends in a draw.

## Left out

- The light/dark theme, `toggleTheme` and the effect that writes `data-theme` to the document: UI state with no game logic, and DOM I/O.
- The unused `lines` array in `calculateWinner`: it is never read; only the eight lines actually scanned are modelled.
- React machinery: `useMemo`/`useCallback` memoisation, the functional updater of `setSquares` against the closure value of `isXNext`, and rendering. Each click and each restart is one atomic state transition.
- The components `Board.jsx`, `Square.jsx` and `GameStatus.jsx`: presentation only. The `disabled` flag of a square repeats the guard of a click.
- Out-of-range square indices: the index type is restricted to 0..8, because in JavaScript such an index would silently grow the array, which no caller does.
- The text of an `Empty` mark in the status line is the empty string where JavaScript would print `null`; the status line never shows it, because it names a winner only when there is one.
