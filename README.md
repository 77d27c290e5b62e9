# Foxwood game engines in Dafny

Foxwood is an iOS app built around a five-by-five resource board. Revealing a
cell spends a move. A resource cell (wood, water, mushrooms, berries) opens a
mini-game whose outcome credits the resource. The board is won when every
resource has been collected twice before the ten moves run out. Beside the
board the app has four mini-games (memory, wood timing, food catching and the
water snake), two stand-alone games (2048 and tic-tac-toe), and the small state
machines around them: navigation, tutorial, onboarding, achievements and the
URL latch of the start-up web view.

This project models that core and proves what it promises. The modules
follow the Swift files: each modelled model file, view-model and manager has
a module of its own. Game2048.swift is split in two, `Game2048Model` (the
values and functions of a move) and `Game2048Engine` (the class that updates
them in place). Some value-level modules also hold the pure functions that
specify code of the matching view-model, and `Wrappers` holds the `Option`
type and stands for no Swift file. Code that updates state in place (the view-models, the
managers, the 2048 and tic-tac-toe engines, the memory deck builder) becomes
classes and methods, with loops where the Swift has loops. Each method is
proved against value-level functions whose properties are lemmas. Pure Swift
(enums, switches, constant tables) becomes datatypes, functions and lemmas.

Conventions used throughout:

- Timers (`Timer.publish`, `DispatchQueue.main.asyncAfter`) are boolean
  "timer running" fields. Each firing is an explicit tick method, and a
  deferred closure is a pending field plus a method that runs its body.
- Random draws (`randomElement`, `Double.random`, `shuffle`,
  `CGFloat.random`) and `UUID()` values are parameters.
- Times are integers: tenths of a second for memory (900) and food (300), and
  sixtieths of a second for water, whose timer fires every 1/60 s (1800, with
  the 0.1 s threshold as 6). The wood indicator runs on a scale of 0 to 1000
  in steps of 15, with the target zone 400 to 600.
- Callbacks (`onGameComplete`, `onGameOver`) are modelled by their argument.
  `completeGame` returns the value it would pass, or `None`, and the game
  manager keeps the list of verdicts it reported.
- Persistence (`UserDefaults`) is a field holding the stored value.

## Model

| member | source | states |
|---|---|---|
| Game2048Model.EmptyBoard | Foxwood/Models/Game2048.swift:78-79 | The board `init` starts from is four by four with every cell empty. |
| Game2048Model.Slide | Foxwood/Models/Game2048.swift:279-288 | A tile sliding towards the edge stays on the board and stops no farther out than where it started. |
| Game2048Model.MergeAt | Foxwood/Models/Game2048.swift:290-302 | A merge keeps the board four by four. |
| Game2048Model.ProcessCell | Foxwood/Models/Game2048.swift:276-313 | One visit of a pass (slide, then a possible merge) keeps the board four by four. |
| Game2048Model.ProcessLine | Foxwood/Models/Game2048.swift:275-314 | The inner loop of a pass over one line keeps the board four by four. |
| Game2048Model.ProcessLines | Foxwood/Models/Game2048.swift:274-315 | The outer loop of a pass over all lines keeps the board four by four. |
| Game2048Model.SlideBoard | Foxwood/Models/Game2048.swift:173-367 | Each of moveUp, moveDown, moveLeft and moveRight, as one pass under a change of coordinates, keeps the board four by four. |
| Game2048Model.SumIntsAtLeast | Foxwood/Models/Game2048.swift:295-304 | Merged values are at least 4, so a pass with merges raises the score by at least 4 per merge. |
| Game2048Model.MergeAtWeights | Foxwood/Models/Game2048.swift:295-302 | Merging two tiles of value v into one of 2v keeps the value total, removes one tile and adds one merged tile. |
| Game2048Model.SlideWeights | Foxwood/Models/Game2048.swift:279-288 | A slide keeps the value total, the tile count and the number of merged tiles. |
| Game2048Model.VisitedTileUnflagged | Foxwood/Models/Game2048.swift:290-293 | A tile the pass visits has not merged in this move, so only tiles nearer the edge can carry the flag that blocks a merge. |
| Game2048Model.SlideBoardFacts | Foxwood/Models/Game2048.swift:173-367 | A pass on a board whose flags were cleared conserves the value total, loses one tile per merge and leaves one merged tile per merge. It keeps every tile's position equal to its cell and every value a power of two. The score grows by exactly the merged values, `hasWon` becomes true exactly when some merge reached 2048 and is never cleared, and `bestScore` follows the score when anything merged. A pass that reports no movement changed nothing. |
| Game2048Model.GameOverMeansStuck | Foxwood/Models/Game2048.swift:110-138 | On a board that `checkGameOver` declares over (full, with no equal neighbours), no direction slides or merges anything. |
| Game2048Model.EmptyCellsMembers | Foxwood/Models/Game2048.swift:89-96 | The empty-cell list of `addRandomTile` holds every empty cell of the board and nothing else. |
| Game2048Model.AllTilesCount | Foxwood/Models/Game2048.swift:369-379 | `getAllTiles` returns one entry per tile, and the empty cells are the remaining 16 minus that many. |
| Game2048Model.SpawnValue | Foxwood/Models/Game2048.swift:104 | A spawned tile is worth 2 or 4, and 2 exactly when the draw is below 0.9. |
| Game2048Model.SpawnPosition | Foxwood/Models/Game2048.swift:102 | The chosen spawn cell is on the board and empty. |
| Game2048Model.AddTile | Foxwood/Models/Game2048.swift:88-108 | `addRandomTile` keeps the board four by four. |
| Game2048Model.AddTileFull | Foxwood/Models/Game2048.swift:98-100 | The empty-cell list is empty exactly when the board is full, and a full board is left alone. |
| Game2048Model.AddTilePlacement | Foxwood/Models/Game2048.swift:102-107 | On a board with room, exactly one previously empty cell receives a new tile of value 2 or 4 whose position is that cell; every other cell is unchanged. |
| Game2048Model.AddTileTotals | Foxwood/Models/Game2048.swift:102-107 | A spawn adds one tile and adds its value to the total. |
| Game2048Model.AddTileKeepsShape | Foxwood/Models/Game2048.swift:105-107 | A spawn keeps positions equal to cells and values powers of two, and adds no merged tile. |
| Game2048Model.ResetTile | Foxwood/Models/Game2048.swift:56-59 | `resetMergeState` clears both per-move flags and keeps the tile's value and position. |
| Game2048Model.ResetFlags | Foxwood/Models/Game2048.swift:141-148 | The first loop of `move` resets every tile's flags and leaves empty cells empty. |
| Game2048Model.ResetFlagsFacts | Foxwood/Models/Game2048.swift:141-148 | After the reset no tile is flagged as merged, and the totals, positions and powers of two are as before. |
| Game2048Model.AddTiles | Foxwood/Models/Game2048.swift:81-83 | The spawn loop of `init` and `resetGame` keeps the board four by four. |
| Game2048Model.NotFullBelowCapacity | Foxwood/Models/Game2048.swift:98-100 | A board with fewer than 16 tiles has an empty cell, so the spawn is not skipped. |
| Game2048Model.SpawnTwice | Foxwood/Models/Game2048.swift:81-83 | Two spawns on an empty board give exactly two tiles, each worth 2 or 4. |
| Game2048Model.NewBoardFacts | Foxwood/Models/Game2048.swift:78-84 | A new game has exactly two tiles with a total between 4 and 8, positions matching cells and no merge flag. |
| Game2048Model.MoveSweep | Foxwood/Models/Game2048.swift:141-161 | The pass `move` makes (flags cleared, one slide in the chosen direction) keeps the board four by four. |
| Game2048Model.MovedBoard | Foxwood/Models/Game2048.swift:163-166 | The board after `move`, spawned on only when the pass moved something, is four by four. |
| Game2048Model.MovedLeavesRoom | Foxwood/Models/Game2048.swift:173-367 | A pass that reports movement leaves at least one empty cell: it merged two tiles, or it slid a tile into a cell that was empty, and no step adds a tile. |
| Game2048Model.MoveFacts | Foxwood/Models/Game2048.swift:140-171 | A move keeps positions equal to cells and values powers of two. It never lowers the score or the best score and leaves the score at most the best score. The board's value changes only by the spawned tile, and it loses one tile per merge. When nothing moved, nothing spawns and the score and the tile count are unchanged. When something moved, the pass left an empty cell, and exactly that previously empty cell receives a new tile of value 2 or 4. Every other cell stays as the pass left it. |
| Game2048Model.TwosAndFoursBlocked | Foxwood/Models/Game2048.swift:290-293 | In `2 2 4 4`, the first 4 slides next to the freshly merged 4 and its merge flag keeps them apart. |
| Game2048Model.LeftMoveFourTwos | Foxwood/Models/Game2048.swift:271-318 | A left move on `2 2 2 2` gives `4 4 _ _` and scores 8. |
| Game2048Model.LeftMoveTwosAndFours | Foxwood/Models/Game2048.swift:271-318 | A left move on `2 2 4 4` gives `4 8 _ _` and scores 12. |
| Game2048Model.MoveFourTwos | Foxwood/Models/Game2048.swift:140-171 | The whole move on `2 2 2 2` from zero raises both the score and the best score to 8. |
| Game2048Engine.Game2048.constructor | Foxwood/Models/Game2048.swift:78-84 | `init` gives an empty board with the two spawned tiles and every counter and flag at zero. |
| Game2048Engine.Game2048.AddInitialTiles | Foxwood/Models/Game2048.swift:81-83 | The spawn loop changes only the board, by the spawns its draws choose. |
| Game2048Engine.Game2048.AddRandomTile | Foxwood/Models/Game2048.swift:88-108 | `addRandomTile` changes only the board, as one spawn does. |
| Game2048Engine.Game2048.ScanEmptyCells | Foxwood/Models/Game2048.swift:89-96 | The scan returns the empty cells in row-major order. |
| Game2048Engine.Game2048.CheckGameOver | Foxwood/Models/Game2048.swift:110-138 | `isGameOver` is set when the board is full with no equal neighbours to the right or below, and otherwise left as it was; nothing else changes. |
| Game2048Engine.Game2048.ScanFull | Foxwood/Models/Game2048.swift:111-117 | The first scan reports whether the board is full. |
| Game2048Engine.Game2048.ScanNeighbours | Foxwood/Models/Game2048.swift:119-135 | The second scan reports whether no cell has an equal neighbour to its right or below. |
| Game2048Engine.Game2048.ResetMergeStates | Foxwood/Models/Game2048.swift:141-148 | The first loop of `move` clears every tile's flags and changes nothing else. |
| Game2048Engine.Game2048.SlideTowards | Foxwood/Models/Game2048.swift:173-367 | The in-place pass in any direction ends in exactly the state `SlideBoard` describes, so every fact of `SlideBoardFacts` holds of it. |
| Game2048Engine.Game2048.SlideLine | Foxwood/Models/Game2048.swift:275-314 | The inner `for` over one line agrees with the line-level function. |
| Game2048Engine.Game2048.VisitCell | Foxwood/Models/Game2048.swift:276-313 | One visit in place agrees with the cell-level function. |
| Game2048Engine.Game2048.SlideTile | Foxwood/Models/Game2048.swift:279-288 | The `while` slide loop moves only the board, to where `Slide` says the tile stops. |
| Game2048Engine.Game2048.Move | Foxwood/Models/Game2048.swift:140-171 | `move` returns whether the pass moved anything. The board is the pass, plus one spawn exactly when it moved. A move that moved has room for the spawn, gains exactly one tile of value 2 or 4 on a cell the pass left empty, and conserves the rest of the board's value. The score and best score never fall. `movesCount` rises by one exactly when it moved, and `isGameOver` ends up true exactly when it was already or the new board is stuck. |
| Game2048Engine.Game2048.FinishMove | Foxwood/Models/Game2048.swift:163-168 | A moving turn spawns and counts, a still one does neither, and the game-over flag then reflects the board. |
| Game2048Engine.Game2048.GetAllTiles | Foxwood/Models/Game2048.swift:369-379 | The tiles come in row-major order, one per occupied cell. |
| Game2048Engine.Game2048.ResetGame | Foxwood/Models/Game2048.swift:381-392 | `resetGame` gives a fresh two-tile board, zero score, moves and flags, and keeps the best score. |
| Game2048Vm.PauseState | Foxwood/ViewModels/2048/Game2048ViewModel.swift:61-64 | Pausing changes the state only from playing, and never enters or leaves the finished state. |
| Game2048Vm.ResumeState | Foxwood/ViewModels/2048/Game2048ViewModel.swift:66-69 | Resuming changes the state only from paused, and never enters or leaves the finished state. |
| Game2048Vm.ToggleState | Foxwood/ViewModels/2048/Game2048ViewModel.swift:71-78 | The menu toggle leaves the state, or makes it playing or paused, and keeps a finished game finished. |
| Game2048Vm.AfterMove | Foxwood/ViewModels/2048/Game2048ViewModel.swift:102-110 | A win finishes the game as a success even when the game is also over, because the win check runs second; a loss alone finishes it as a failure. |
| Game2048Vm.SaveAsWritten | Foxwood/ViewModels/2048/Game2048ViewModel.swift:96-100 | The save branch as written: the best score becomes the larger of score and best score. Storage is written only when the score exceeded the best score, and then with that new best. |
| Game2048Vm.ToggleTwiceResumes | Foxwood/ViewModels/2048/Game2048ViewModel.swift:71-78 | Opening and then closing the menu returns a running game to playing. |
| Game2048Vm.FinishedIsFinal | Foxwood/ViewModels/2048/Game2048ViewModel.swift:61-78 | Pause, resume and the menu toggle all leave a finished game as it is. |
| Game2048Vm.SaveBranchDead | Foxwood/ViewModels/2048/Game2048ViewModel.swift:97-100 | After any move the engine's best score is at least its score, because the merge at Game2048.swift line 305 already raised it, so the save branch is never taken. |
| Game2048Vm.StoredBestGoesStale | Foxwood/ViewModels/2048/Game2048ViewModel.swift:91-100 | A left move on `2 2 2 2` from zero raises the best score to 8 while the save condition is false, so storage keeps 0. |
| Game2048Vm.Game2048ViewModel.constructor | Foxwood/ViewModels/2048/Game2048ViewModel.swift:34-46 | `init` gives a new two-tile game whose best score is the stored one, playing with the menu hidden. |
| Game2048Vm.Game2048ViewModel.ResetGame | Foxwood/ViewModels/2048/Game2048ViewModel.swift:54-59 | `resetGame` gives a fresh board with zero score that keeps the best score, playing with the menu hidden. |
| Game2048Vm.Game2048ViewModel.PauseGame | Foxwood/ViewModels/2048/Game2048ViewModel.swift:61-64 | Only a playing game pauses. |
| Game2048Vm.Game2048ViewModel.ResumeGame | Foxwood/ViewModels/2048/Game2048ViewModel.swift:66-69 | Only a paused game resumes. |
| Game2048Vm.Game2048ViewModel.TogglePauseMenu | Foxwood/ViewModels/2048/Game2048ViewModel.swift:71-78 | The state follows `ToggleState` (resume when the menu was shown, pause otherwise, a finished game kept), and the menu flag flips on every call. |
| Game2048Vm.Game2048ViewModel.CompleteGame | Foxwood/ViewModels/2048/Game2048ViewModel.swift:80-83 | The callback value is present exactly when the game is finished, and it is the finished state's success flag. |
| Game2048Vm.Game2048ViewModel.Tiles | Foxwood/ViewModels/2048/Game2048ViewModel.swift:29-31 | The `tiles` property is the engine's tile list. |
| Game2048Vm.Game2048ViewModel.PlayMove | Foxwood/ViewModels/2048/Game2048ViewModel.swift:94 | The view-model's call of the engine's `move` leaves every field of the game as the pass and its spawn determine: board, score, best score, `hasWon`, `movesCount` and `isGameOver`. |
| Game2048Vm.Game2048ViewModel.SettleState | Foxwood/ViewModels/2048/Game2048ViewModel.swift:102-110 | After a move the screen state is the one `AfterMove` gives: a win finishes it as a success, otherwise game over as a failure, otherwise it stays. The menu flag and storage are untouched. |
| Game2048Vm.Game2048ViewModel.MoveAsWritten | Foxwood/ViewModels/2048/Game2048ViewModel.swift:91-116 | As written, a move refused because the game is not playing or the menu is open leaves the game and the state untouched. An accepted move leaves the game exactly as the engine's `move` does: board, score, best score, `hasWon`, `movesCount` and `isGameOver`. The state then follows `AfterMove`. The stored best score and the menu flag never change. |
| Game2048Vm.Game2048ViewModel.Move | Foxwood/ViewModels/2048/Game2048ViewModel.swift:91-116 | The corrected move has the same guard and the same effect on the game and the state. A refused move also leaves storage alone, and the menu flag never changes. In addition, storage takes the best score whenever it rose above what was stored, so storage never falls behind the game's best score. |
| TicTacToeModel.Next | Foxwood/Models/TicTacToe.swift:13-15 | The next player is never the current one. |
| TicTacToeModel.NextInvolution | Foxwood/Models/TicTacToe.swift:13-15 | `next` swaps player 1 and player 2, so applying it twice gives the player back. |
| TicTacToeModel.NewBoard | Foxwood/Models/TicTacToe.swift:70-76 | A new board is three by three, and every cell holds its own coordinates, no player and no winning mark. |
| TicTacToeModel.MarkAllAt | Foxwood/Models/TicTacToe.swift:167-175 | Marking flags exactly the listed cells and moves no player. |
| TicTacToeModel.Line | Foxwood/Models/TicTacToe.swift:115-165 | Each of the eight scanned lines is three in-bounds cells in a row, a column or a diagonal. |
| TicTacToeModel.FirstLineFrom | Foxwood/Models/TicTacToe.swift:115-165 | A line the scan reports is complete and comes no earlier than where the scan started. |
| TicTacToeModel.CompleteMeansFound | Foxwood/Models/TicTacToe.swift:115-165 | Any complete line makes the scan succeed, at that line or an earlier one. |
| TicTacToeModel.NotFoundMeansNoLine | Foxwood/Models/TicTacToe.swift:115-165 | When the scan finds nothing, no line it covers is complete. |
| TicTacToeModel.NoLineMeansNotFound | Foxwood/Models/TicTacToe.swift:115-165 | A board without a complete line makes the scan find nothing. |
| TicTacToeModel.CompletedLineBelongsToMover | Foxwood/Models/TicTacToe.swift:85-91 | A line completed by a move contains the cell just taken and is entirely the mover's. |
| TicTacToeModel.WinnerIsMover | Foxwood/Models/TicTacToe.swift:88-91 | When no line was complete before, the line the scan finds after a move holds the moved-to cell and is the mover's. |
| TicTacToeModel.MarkAllKeepsLines | Foxwood/Models/TicTacToe.swift:167-175 | Marking the winning cells does not change which line the scan finds. |
| TicTacToeModel.Occupied | Foxwood/Models/TicTacToe.swift:85-86 | The number of taken cells is at most nine. |
| TicTacToeModel.PlaceCount | Foxwood/Models/TicTacToe.swift:85-86 | A valid move adds exactly one taken cell. |
| TicTacToeModel.NineMeansFull | Foxwood/Models/TicTacToe.swift:92-94 | Nine taken cells means every cell is taken. |
| TicTacToeModel.AllCellsRowMajor | Foxwood/Models/TicTacToe.swift:177-185 | `getAllCells` lists nine cells, and cell (r, c) is entry 3r + c. |
| TicTacToeModel.AfterWin | Foxwood/Models/TicTacToe.swift:88-91 | A move that completes a line ends the game with the mover as winner and the mover still current. The recorded line holds the moved-to cell and is marked, and the game invariant holds. |
| TicTacToeModel.AfterDraw | Foxwood/Models/TicTacToe.swift:92-94 | A ninth move that completes no line ends the game with no winner, and the game invariant holds. |
| TicTacToeModel.AfterTurn | Foxwood/Models/TicTacToe.swift:95-97 | Any other valid move passes the turn to the other player, and the game invariant holds. |
| TicTacToeModel.PlaceKeepsMarks | Foxwood/Models/TicTacToe.swift:85 | Taking a cell changes neither marks nor coordinates. |
| TicTacToeModel.TicTacToe.constructor | Foxwood/Models/TicTacToe.swift:62-76 | `init` gives the empty board with player 1 to move, no winner, no line and no moves. |
| TicTacToeModel.TicTacToe.IsValid | Foxwood/Models/TicTacToe.swift:102-113 | A move is valid exactly when the game is not over, the cell is on the board and the cell is free; a valid move adds one taken cell. |
| TicTacToeModel.TicTacToe.MakeMove | Foxwood/Models/TicTacToe.swift:80-100 | An invalid move returns false and changes nothing. A valid one counts one move and then either wins for the mover with the first complete line recorded and marked, or draws at nine moves, or passes the turn. |
| TicTacToeModel.TicTacToe.Settle | Foxwood/Models/TicTacToe.swift:88-97 | After the mark is down, exactly one of win, draw or turn change happens, as `MakeMove` states. |
| TicTacToeModel.TicTacToe.RecordWin | Foxwood/Models/TicTacToe.swift:89-91 | The game is over, the mover is the winner, and the recorded line is marked. |
| TicTacToeModel.TicTacToe.RecordDraw | Foxwood/Models/TicTacToe.swift:93-94 | The game is over with no winner. |
| TicTacToeModel.TicTacToe.PassTurn | Foxwood/Models/TicTacToe.swift:96 | The turn passes to the other player. |
| TicTacToeModel.TicTacToe.PlaceCurrent | Foxwood/Models/TicTacToe.swift:85-86 | The current player takes the cell and the move count rises by one. |
| TicTacToeModel.TicTacToe.CheckForWin | Foxwood/Models/TicTacToe.swift:115-165 | The scan succeeds exactly when some line is complete, records the first such line, and changes nothing else. |
| TicTacToeModel.TicTacToe.ScanLines | Foxwood/Models/TicTacToe.swift:115-165 | The loops of the scan find the first complete line in the order rows, columns, diagonal, anti-diagonal. |
| TicTacToeModel.TicTacToe.ScanRows | Foxwood/Models/TicTacToe.swift:116-127 | The row loop finds the first complete row, or hands over to the columns. |
| TicTacToeModel.TicTacToe.ScanColumns | Foxwood/Models/TicTacToe.swift:129-140 | The column loop finds the first complete column, or hands over to the diagonals. |
| TicTacToeModel.TicTacToe.ScanDiagonals | Foxwood/Models/TicTacToe.swift:142-164 | The two diagonal tests find the first complete diagonal, if any. |
| TicTacToeModel.TicTacToe.MarkWinningCells | Foxwood/Models/TicTacToe.swift:167-175 | The cells of the recorded line are marked and every other cell is kept; without a recorded line nothing changes. |
| TicTacToeModel.TicTacToe.GetAllCells | Foxwood/Models/TicTacToe.swift:177-185 | The cells come in row-major order. |
| TicTacToeModel.TicTacToe.ResetGame | Foxwood/Models/TicTacToe.swift:187-198 | `resetGame` restores the empty board, player 1, no winner, no line and zero moves. |
| TicTacToeModel.DrawMeansFull | Foxwood/Models/TicTacToe.swift:92-94 | A game over with no winner has every cell taken. |
| TicTacToeVm.ToggleState | Foxwood/ViewModels/TicTacToe/TicTacToeViewModel.swift:51-58 | The menu toggle sets playing or paused from the menu flag alone, whatever the state was. |
| TicTacToeVm.Reported | Foxwood/ViewModels/TicTacToe/TicTacToeViewModel.swift:60-65 | The reported success is true exactly when someone won, so a draw reports false. |
| TicTacToeVm.ToggleForgetsFinished | Foxwood/ViewModels/TicTacToe/TicTacToeViewModel.swift:51-58 | Opening the menu over a finished game pauses it, and closing the menu then makes it playing: the result is lost. |
| TicTacToeVm.TicTacToeViewModel.constructor | Foxwood/ViewModels/TicTacToe/TicTacToeViewModel.swift:32-42 | `init` gives a fresh game, playing with the menu hidden. |
| TicTacToeVm.TicTacToeViewModel.ResetGame | Foxwood/ViewModels/TicTacToe/TicTacToeViewModel.swift:44-49 | `resetGame` gives a fresh game, playing with the menu hidden. |
| TicTacToeVm.TicTacToeViewModel.TogglePauseMenu | Foxwood/ViewModels/TicTacToe/TicTacToeViewModel.swift:51-58 | The state follows `ToggleState` and the menu flag flips. |
| TicTacToeVm.TicTacToeViewModel.CompleteGame | Foxwood/ViewModels/TicTacToe/TicTacToeViewModel.swift:60-65 | A value is reported exactly when the game is finished, and it says whether there is a winner. |
| TicTacToeVm.TicTacToeViewModel.Cells | Foxwood/ViewModels/TicTacToe/TicTacToeViewModel.swift:19-21 | The `cells` property is the engine's row-major cell list. |
| TicTacToeVm.TicTacToeViewModel.MakeMove | Foxwood/ViewModels/TicTacToe/TicTacToeViewModel.swift:68-91 | A move refused because the game is not playing or the menu is open leaves the game and the state untouched, and so does one the engine rejects. An accepted move counts one more move and places the mover's mark. Then either the first complete line wins for the mover and is marked, or the ninth move draws, or the turn passes. A move that ends the game finishes the screen with the engine's winner. |
| BoardModel.NewCell | Foxwood/Models/Game.swift:29-39 | A new cell keeps its position and kind and is neither revealed nor completed. |
| BoardModel.ResourceFor | Foxwood/ViewModels/Board/BoardGameViewModel.swift:107-117 | Exactly the resource kinds (`isResource`) credit something: wood credits wood, water credits water, and mushrooms and berries both credit food. |
| BoardModel.DefaultGameState | Foxwood/Models/Game.swift:49-58 | The default game has all three resources at 0, ten moves, and is neither over nor won, so the requirements are not met. |
| BoardModel.LayoutSize | Foxwood/Models/Game.swift:62-84 | Every layout has 25 entries, one per cell. |
| BoardModel.LayoutsMatchDistribution | Foxwood/Models/Game.swift:65-84 | Every layout holds each kind as often as the distribution says: wood 4, water 4, mushroom 2, berries 2, web 5, empty 8. |
| GameManagement.GameManager.constructor | Foxwood/Managers/Game/GameManager.swift:4-10 | A new manager holds the default state, unpaused and not over, with no callback and nothing reported. |
| GameManagement.GameManager.StartNewGame | Foxwood/Managers/Game/GameManager.swift:12-16 | The default state, unpaused and not over; the callback is kept. |
| GameManagement.GameManager.ResetGame | Foxwood/Managers/Game/GameManager.swift:18-23 | As `startNewGame`, and the callback is dropped. |
| GameManagement.GameManager.SetGameOverHandler | Foxwood/ViewModels/Board/BoardGameViewModel.swift:27-29 | Installing the callback changes nothing else. |
| GameManagement.GameManager.PauseGame | Foxwood/Managers/Game/GameManager.swift:25-27 | Only the pause flag changes, to true. |
| GameManagement.GameManager.ResumeGame | Foxwood/Managers/Game/GameManager.swift:29-31 | Only the pause flag changes, to false. |
| GameManagement.GameManager.AddResource | Foxwood/Managers/Game/GameManager.swift:33-37 | The count of the resource grows by the amount and no other count changes. The win check at its end never decides the game, so the verdict, the moves and the reports stay as they were. |
| GameManagement.GameManager.DecrementMoves | Foxwood/Managers/Game/GameManager.swift:39-48 | Nothing happens once the game is over. Otherwise one move is spent and the budget never goes below zero. Spending the last move ends the game, wins it exactly when every resource reached 2, and reports the verdict once. |
| GameManagement.GameManager.CheckWinCondition | Foxwood/Managers/Game/GameManager.swift:50-66 | With the budget spent and the game not over, the game ends, is won exactly when every requirement is met, and reports the verdict if a callback is installed. Otherwise nothing changes, so the verdict is latched. |
| GameManagement.GameManager.ResourceCount | Foxwood/Managers/Game/GameManager.swift:99-109 | A resource's count is its dictionary entry, or 0 when there is none. |
| BoardGameVm.SetCellAt | Foxwood/ViewModels/Board/BoardGameViewModel.swift:78-80 | Replacing one cell of the grid changes that cell and no other. |
| BoardGameVm.BuildBoardAt | Foxwood/ViewModels/Board/BoardGameViewModel.swift:52-61 | Cell (r, c) of a built board has its own position and the kind at layout index 5r + c, and is neither revealed nor completed. |
| BoardGameVm.BuildBoardKinds | Foxwood/ViewModels/Board/BoardGameViewModel.swift:55-57 | A built cell has a kind exactly when the layout lists that kind at its index. |
| BoardGameVm.MovesAfterReveal | Foxwood/ViewModels/Board/BoardGameViewModel.swift:84-90 | An empty cell costs nothing; a web or resource cell costs one move unless the game is already over. |
| BoardGameVm.BoardGameViewModel.constructor | Foxwood/ViewModels/Board/BoardGameViewModel.swift:23-30 | `init` builds the first layout's board, starts a new game and installs the game-over callback, with nothing pending and the menu hidden. |
| BoardGameVm.BoardGameViewModel.SetupNewGame | Foxwood/ViewModels/Board/BoardGameViewModel.swift:32-37 | The board of the current layout (the layout index then advances), a new game in the manager, nothing pending and the menu hidden. |
| BoardGameVm.BoardGameViewModel.ResetGame | Foxwood/ViewModels/Board/BoardGameViewModel.swift:39-45 | The pending mini-game is dropped, the manager is reset, and a new game is set up. |
| BoardGameVm.BoardGameViewModel.CreateBoard | Foxwood/ViewModels/Board/BoardGameViewModel.swift:47-67 | The board is built from the current layout, and the layout index then advances modulo the number of layouts. |
| BoardGameVm.BoardGameViewModel.RevealCell | Foxwood/ViewModels/Board/BoardGameViewModel.swift:69-96 | A reveal succeeds exactly when the game is not paused, nothing is pending, the position is on the board and the cell is closed. A refused reveal changes nothing. A successful one opens exactly that cell and returns its kind. A web or resource cell costs one move unless the game is already over, and an empty cell costs nothing. A resource cell becomes the pending mini-game. A reveal that spends the last move ends the game: it is won exactly when every resource reached its requirement, and the verdict is handed to `onGameOver` when one is installed. Any other reveal leaves `hasWon` alone and reports nothing, and no reveal installs or removes the callback. |
| BoardGameVm.BoardGameViewModel.HandleResourceGameCompletion | Foxwood/ViewModels/Board/BoardGameViewModel.swift:98-122 | Without a pending mini-game nothing happens. Otherwise its cell is marked completed whatever the outcome, a win credits one of the cell's resource, and the pending mini-game is cleared. Moves and the verdict are untouched, nothing is reported to `onGameOver`, and the callback stays as it was. |
| BoardGameVm.BoardGameViewModel.TogglePauseMenu | Foxwood/ViewModels/Board/BoardGameViewModel.swift:124-139 | The manager resumes when the menu was shown and pauses otherwise, and the menu flag flips. |
| MemoryModel.SameCardIgnoresState | Foxwood/Models/Memory.swift:30-32 | Card equality ignores the state: a card turned over is still the same card, though its value differs. |
| MemoryModel.PairList | Foxwood/Models/Memory.swift:53-57 | The identifier list of the first loop has two entries per pair, 2n in all. |
| MemoryModel.PairListStep | Foxwood/Models/Memory.swift:53-57 | The list for n pairs is the list for n - 1 followed by two copies of n. |
| MemoryModel.PairListCount | Foxwood/Models/Memory.swift:53-57 | Each identifier from 1 to n is listed exactly twice, and nothing else is listed. |
| MemoryModel.Pick | Foxwood/Models/Memory.swift:59 | The index a shuffle step swaps with lies at or after the current index and inside the deck. |
| MemoryModel.SwapKeepsMultiset | Foxwood/Models/Memory.swift:59 | One swap of the shuffle keeps the length and the multiset of elements. |
| MemoryModel.ShufflePermutes | Foxwood/Models/Memory.swift:59 | The shuffle only permutes: length and multiset are kept. |
| MemoryModel.SlotPosition | Foxwood/Models/Memory.swift:61-75 | Card k is placed on the five-by-five board and never on the centre cell. |
| MemoryModel.SlotPositionsDistinct | Foxwood/Models/Memory.swift:61-75 | Different cards are placed on different cells. |
| MemoryModel.GenerateCards | Foxwood/Models/Memory.swift:49-78 | `generateCards` returns 24 cards, which is 2 × 12 pairs. Their identifiers are the shuffled pair list, so each identifier 1 to 12 occurs twice. Card k is face down on its row-major slot, with the centre skipped. |
| MemoryModel.Unplaced | Foxwood/Models/Memory.swift:55 | The cards the first loop makes carry exactly the listed identifiers, in order. |
| MemoryModel.KeptIdentifiers | Foxwood/Models/Memory.swift:69-72 | Placing keeps every card's identifier. |
| MemoryModel.AppendPairs | Foxwood/Models/Memory.swift:53-57 | The nested append loops produce exactly the pair list. |
| MemoryModel.AssignPositions | Foxwood/Models/Memory.swift:61-75 | The placing loop rebuilds card k face down on slot k, with its identifier kept and the k-th id. |
| MemoryModel.EachIdentifierTwice | Foxwood/Models/Memory.swift:53-59 | A deck with the pair list's multiset holds each identifier from 1 to 12 exactly twice and no other. |
| MemoryVm.FindCard | Foxwood/ViewModels/Memory/MemoryGameViewModel.swift:91-93 | The search returns the first card at the position, or none when no card is there. |
| MemoryVm.FindOwnCell | Foxwood/ViewModels/Memory/MemoryGameViewModel.swift:91-93 | When cards lie on distinct cells, searching a card's cell finds that card. |
| MemoryVm.FindSamePositions | Foxwood/ViewModels/Memory/MemoryGameViewModel.swift:176-183 | The search looks only at positions, so turning cards over does not change what it finds. |
| MemoryVm.Flippable | Foxwood/ViewModels/Memory/MemoryGameViewModel.swift:91-100 | A card is flippable when it is the first card at the position and is face down; otherwise none is. |
| MemoryVm.SetPairState | Foxwood/ViewModels/Memory/MemoryGameViewModel.swift:173-185 | A resolution moves no card. |
| MemoryVm.MatchedCount | Foxwood/ViewModels/Memory/MemoryGameViewModel.swift:245-247 | The matched count is at most the number of cards. |
| MemoryVm.AllMatchedCount | Foxwood/ViewModels/Memory/MemoryGameViewModel.swift:230-234 | Every card is matched exactly when the matched count equals the number of cards. |
| MemoryVm.DealtKeepsInv | Foxwood/ViewModels/Memory/MemoryGameViewModel.swift:30-38 | A freshly dealt deck, face down with nothing selected, satisfies the flip invariant. |
| MemoryVm.GeneratedDistinct | Foxwood/Models/Memory.swift:61-75 | A generated deck lies on distinct cells, every card face down. |
| MemoryVm.FlipFirstKeepsInv | Foxwood/ViewModels/Memory/MemoryGameViewModel.swift:103-108 | The first flip of a pair keeps the flip invariant with the flipped card selected. |
| MemoryVm.FlipSecondKeepsInv | Foxwood/ViewModels/Memory/MemoryGameViewModel.swift:109-121 | The second flip keeps the invariant, and the scheduled resolution is a match exactly when the identifiers agree. |
| MemoryVm.ResolveKeepsInv | Foxwood/ViewModels/Memory/MemoryGameViewModel.swift:173-188 | A resolution clears the selection and keeps the invariant. |
| MemoryVm.ResolveCounts | Foxwood/ViewModels/Memory/MemoryGameViewModel.swift:165-228 | After a resolution no card is face up. The matched count rises by two for a match and stays the same otherwise, and no matched card changes. |
| MemoryVm.AtMostTwoFaceUp | Foxwood/ViewModels/Memory/MemoryGameViewModel.swift:103-111 | Under the flip invariant, no three cards are face up at once. |
| MemoryVm.Deal | Foxwood/ViewModels/Memory/MemoryGameViewModel.swift:32 | The deck the view-model deals has 24 face-down cards on distinct cells. |
| MemoryVm.MemoryGameViewModel.constructor | Foxwood/ViewModels/Memory/MemoryGameViewModel.swift:24-27 | `init` deals a new deck with the full 90 s and nothing selected, and starts the countdown. |
| MemoryVm.MemoryGameViewModel.SetupNewGame | Foxwood/ViewModels/Memory/MemoryGameViewModel.swift:30-38 | A new deck, the full time, nothing selected and the countdown started. The processing flag, a pending resolution and a running game timer are left as they were. |
| MemoryVm.MemoryGameViewModel.ResetGame | Foxwood/ViewModels/Memory/MemoryGameViewModel.swift:44-47 | As `setupNewGame`, with the menu closed. |
| MemoryVm.MemoryGameViewModel.StartCountdown | Foxwood/ViewModels/Memory/MemoryGameViewModel.swift:128-131 | The countdown state shows its full duration and its timer runs. |
| MemoryVm.MemoryGameViewModel.CountdownTick | Foxwood/ViewModels/Memory/MemoryGameViewModel.swift:132-142 | The count drops by one; while positive it is shown, and at zero its timer stops and play starts with the game timer. |
| MemoryVm.MemoryGameViewModel.StartGameplay | Foxwood/ViewModels/Memory/MemoryGameViewModel.swift:145-149 | Play starts and the game timer runs. |
| MemoryVm.MemoryGameViewModel.GameTick | Foxwood/ViewModels/Memory/MemoryGameViewModel.swift:151-163 | With 0.1 s or less left the game is lost; otherwise 0.1 s passes. |
| MemoryVm.MemoryGameViewModel.FinishGame | Foxwood/ViewModels/Memory/MemoryGameViewModel.swift:236-240 | The game timer stops and the game is finished with the given verdict. |
| MemoryVm.MemoryGameViewModel.PauseGame | Foxwood/ViewModels/Memory/MemoryGameViewModel.swift:49-53 | Only a playing game pauses, and its timer stops. |
| MemoryVm.MemoryGameViewModel.ResumeGame | Foxwood/ViewModels/Memory/MemoryGameViewModel.swift:55-59 | Only a paused game resumes, and its timer restarts. |
| MemoryVm.MemoryGameViewModel.TogglePauseMenu | Foxwood/ViewModels/Memory/MemoryGameViewModel.swift:61-68 | Resume when the menu is shown, pause otherwise, and flip the menu. |
| MemoryVm.MemoryGameViewModel.CompleteGame | Foxwood/ViewModels/Memory/MemoryGameViewModel.swift:70-73 | A verdict is reported exactly when the game is finished. |
| MemoryVm.MemoryGameViewModel.FlipCard | Foxwood/ViewModels/Memory/MemoryGameViewModel.swift:81-125 | A flip acts only while playing with the menu closed, no pair in process, fewer than two cards selected, and a face-down first card at the position. That card alone turns face up. It becomes the first selection, or the second, which starts processing the pair and schedules a match exactly when the identifiers agree. In every other case nothing changes. |
| MemoryVm.MemoryGameViewModel.ResolvePending | Foxwood/ViewModels/Memory/MemoryGameViewModel.swift:165-228 | The scheduled closure runs and is consumed. With a pair selected, the pair becomes matched for a match and face down otherwise, and the selection and processing flag are cleared; with nothing scheduled the cards and the game state are untouched. |
| MemoryVm.MemoryGameViewModel.ResolveMatch | Foxwood/ViewModels/Memory/MemoryGameViewModel.swift:167-197 | Unless the selection was cleared, the two selected cards become matched and the selection and processing flag are cleared; the game is won once every card is matched. |
| MemoryVm.MemoryGameViewModel.ResolveNoMatch | Foxwood/ViewModels/Memory/MemoryGameViewModel.swift:202-227 | Unless the selection was cleared, the two selected cards turn face down and the selection and processing flag are cleared; matched cards are not touched. |
| MemoryVm.MemoryGameViewModel.SettlePair | Foxwood/ViewModels/Memory/MemoryGameViewModel.swift:173-188 | The pair takes the state the pending resolution calls for, and the selection, processing flag and pending resolution are cleared. |
| MemoryVm.MemoryGameViewModel.PairsMatched | Foxwood/ViewModels/Memory/MemoryGameViewModel.swift:245-247 | Matched cards come in pairs: the count is half the matched cards, between 0 and 12, and is 12 exactly when every card is matched. |
| WoodModel.Update | Foxwood/Models/Wood.swift:31-45 | The indicator steps 0.015 in its direction and stays on the scale; reaching or passing an end stops it there and turns it round. |
| WoodModel.UpdateIsSmall | Foxwood/Models/Wood.swift:31-45 | An update moves the indicator by at most one step and turns it round only at an end of the scale. |
| WoodModel.Climbing | Foxwood/Models/Wood.swift:31-37 | From the start, the indicator climbs one step per update until it reaches the top. |
| WoodModel.TopAfterSixtySevenUpdates | Foxwood/Models/Wood.swift:31-37 | The 67th update from the start reaches the top and turns the indicator round. |
| WoodModel.TargetZoneBounds | Foxwood/Models/Wood.swift:47-51 | A position is in the target zone exactly when it lies between 0.4 and 0.6 inclusive. |
| WoodModel.HandleHit | Foxwood/Models/Wood.swift:59-67 | A hit lengthens the streak by one and makes the best streak the larger of itself and the streak. A miss zeroes the streak and counts one more miss. Misses and the best streak never decrease. |
| WoodModel.HandleHitKeepsInv | Foxwood/Models/Wood.swift:59-67 | `handleHit` keeps the best streak at least the current streak, with counts non-negative. |
| WoodModel.WonMeansOver | Foxwood/Models/Wood.swift:69-76 | A won game is over, and a game is over but lost exactly when it has three misses and a streak below five. |
| WoodModel.PlayFromNew | Foxwood/Models/Wood.swift:59-67 | From a fresh score, the streak is the trailing run of hits and the miss count is the number of misses. |
| WoodModel.LengthBound | Foxwood/Models/Wood.swift:59-72 | A run of taps that never ended the game has at most five taps per miss plus its trailing hits. |
| WoodModel.OverWithinFifteenTaps | Foxwood/Models/Wood.swift:59-76 | However the taps fall, the game is over by the fifteenth tap. |
| WoodVm.WoodGameViewModel.constructor | Foxwood/ViewModels/Wood/WoodGameViewModel.swift:23-26 | `init` gives a fresh score and the indicator at the bottom moving up, with the countdown from 2 started. |
| WoodVm.WoodGameViewModel.HandleTap | Foxwood/ViewModels/Wood/WoodGameViewModel.swift:29-58 | A tap acts only while playing. It hits exactly when the indicator is in the target zone, records and scores that, and finishes the game when the score ends it. |
| WoodVm.WoodGameViewModel.CompleteGame | Foxwood/ViewModels/Wood/WoodGameViewModel.swift:60-63 | A verdict is reported exactly when the game is finished. |
| WoodVm.WoodGameViewModel.CountdownTick | Foxwood/ViewModels/Wood/WoodGameViewModel.swift:79-90 | The count drops by one; while positive it is shown, and at zero its timer stops and play starts. |
| WoodVm.WoodGameViewModel.StartGameplay | Foxwood/ViewModels/Wood/WoodGameViewModel.swift:92-101 | Play starts with the game timer running. |
| WoodVm.WoodGameViewModel.GameTick | Foxwood/ViewModels/Wood/WoodGameViewModel.swift:98-105 | The indicator makes one update. |
| WoodVm.WoodGameViewModel.FinishGame | Foxwood/ViewModels/Wood/WoodGameViewModel.swift:107-112 | The game timer stops and the game is finished, won exactly when the streak reached five. |
| FoodModel.EdibleKinds | Foxwood/Models/Food.swift:34-39 | Exactly mushrooms and berries are edible. |
| FoodModel.RandomElement | Foxwood/Models/Food.swift:46 | A draw from an empty list gives nothing; otherwise it gives an element of the list. |
| FoodModel.RandomTypeDraws | Foxwood/Models/Food.swift:41-47 | The fallback to mushroom is never used, since the list is not empty. |
| FoodModel.EveryKindDrawn | Foxwood/Models/Food.swift:41-47 | Every one of the five kinds can be drawn. |
| FoodModel.NewItem | Foxwood/Models/Food.swift:50-55 | A new item keeps its id and kind and starts enabled. |
| FoodModel.SwiftConstantsValid | Foxwood/Models/Food.swift:6-13 | The constants of Food.swift (30 s, 10 items, cap 45) and of FoodItem.swift (25 s, 10 items, cap 40) both suit the engine. |
| FoodModel.FindItem | Foxwood/ViewModels/Food/FoodGameViewModel.swift:122 | The search returns the first item with the id, or none when there is none. |
| FoodModel.DisableItem | Foxwood/ViewModels/Food/FoodGameViewModel.swift:122-124 | The first item with the tapped id, if any, is disabled; every other item, and every id and kind, is kept. |
| FoodModel.DisableItemDisables | Foxwood/ViewModels/Food/FoodGameViewModel.swift:122-124 | After a tap the found item is disabled, and no item is enabled that was not before. |
| FoodVm.FoodGameViewModel.constructor | Foxwood/ViewModels/Food/FoodGameViewModel.swift:32-35 | `init` gives no items, the full time and nothing collected, with the countdown from 3 started. |
| FoodVm.FoodGameViewModel.CountdownTick | Foxwood/ViewModels/Food/FoodGameViewModel.swift:46-57 | The count drops by one; while positive it is shown, and at zero its timer stops and the game starts. |
| FoodVm.FoodGameViewModel.StartGame | Foxwood/ViewModels/Food/FoodGameViewModel.swift:59-64 | Play starts with the game timer and item generation running. |
| FoodVm.FoodGameViewModel.GameTick | Foxwood/ViewModels/Food/FoodGameViewModel.swift:66-78 | With 0.1 s or less left the game finishes; otherwise 0.1 s passes. |
| FoodVm.FoodGameViewModel.GenerationTick | Foxwood/ViewModels/Food/FoodGameViewModel.swift:80-90 | While generation runs, each firing appends one new item of the drawn kind below the cap; otherwise the items stay as they are. |
| FoodVm.FoodGameViewModel.GenerateNewItem | Foxwood/ViewModels/Food/FoodGameViewModel.swift:92-103 | Below the cap one new enabled item of the drawn kind is appended; at the cap nothing happens, so the cap is never exceeded. |
| FoodVm.FoodGameViewModel.TapItem | Foxwood/ViewModels/Food/FoodGameViewModel.swift:105-125 | A tap is accepted only while playing, with no warning, on an enabled item. An edible item adds one food. Any other shows the warning and removes one food unless none was collected, so the count never goes negative. Either way the tapped item is disabled. |
| FoodVm.FoodGameViewModel.ActivateWarning | Foxwood/ViewModels/Food/FoodGameViewModel.swift:127-136 | The warning shows and its one-shot timer runs. |
| FoodVm.FoodGameViewModel.MissTapTimerFires | Foxwood/ViewModels/Food/FoodGameViewModel.swift:130-135 | The warning ends and its timer stops. |
| FoodVm.FoodGameViewModel.FinishGame | Foxwood/ViewModels/Food/FoodGameViewModel.swift:138-143 | Every timer stops and the game is won exactly when at least the required food was collected. |
| FoodVm.FoodGameViewModel.StopTimers | Foxwood/ViewModels/Food/FoodGameViewModel.swift:150-164 | Every timer is stopped and nothing else changes, so the view-model stays consistent and can still be tapped or ticked afterwards. |
| FoodVm.FoodGameViewModel.CompleteGame | Foxwood/ViewModels/Food/FoodGameViewModel.swift:145-148 | A verdict is reported exactly when the game is finished. |
| WaterModel.Movement | Foxwood/Models/Water.swift:30-41 | Each direction moves `moveSpeed` along one axis and 0 along the other: up is -y, down +y, left -x and right +x. |
| WaterModel.MovementOpposite | Foxwood/Models/Water.swift:33-40 | Opposite directions move by negated vectors, so a step there and back returns to the start. |
| WaterVm.SwipeClassification | Foxwood/ViewModels/Water/WaterGameViewModel.swift:50-66 | A drag of 30 points or less on both axes is ignored. Otherwise the longer axis decides the direction and its sign the way along it, and a tie changes nothing. |
| WaterVm.SwipeReversed | Foxwood/ViewModels/Water/WaterGameViewModel.swift:50-66 | The same drag made backwards gives the opposite direction. |
| WaterVm.ContainsCenter | Foxwood/ViewModels/Water/WaterGameViewModel.swift:147-153 | A rectangle of zero width or height contains no point, so every step there hits the wall; any other rectangle contains its centre. |
| WaterVm.GameArea | Foxwood/ViewModels/Water/WaterGameViewModel.swift:35-42 | The game area spans the full width, starting below the status bar and the top inset and ending above the bottom inset. |
| WaterVm.StepTime | Foxwood/ViewModels/Water/WaterGameViewModel.swift:112-120 | Outside play nothing happens; with 0.1 s or less left the game finishes and nothing moves; otherwise one interval passes. |
| WaterVm.StepMovesHead | Foxwood/ViewModels/Water/WaterGameViewModel.swift:135-175 | A head that would leave the area stays and the game finishes; otherwise it steps by the direction's movement. |
| WaterVm.StepCollects | Foxwood/ViewModels/Water/WaterGameViewModel.swift:126-128 | A drop nearer than 27 points to the head after the move is drunk: exactly one more point and one more segment, and the new drop replaces it. |
| WaterVm.WallWithEnoughDropsWins | Foxwood/ViewModels/Water/WaterGameViewModel.swift:147-152 | A run that hits the wall with at least ten drops is won. |
| WaterVm.ScoreRisesAfterWallFinish | Foxwood/ViewModels/Water/WaterGameViewModel.swift:123-132 | The state is not re-checked after the move, so when the head stops at the wall next to a drop, the verdict is fixed before the drop is drunk and the score still rises. |
| WaterVm.NinthDropAtTheWall | Foxwood/ViewModels/Water/WaterGameViewModel.swift:123-132 | With nine drops and the head at the bottom edge next to a drop, the game is lost yet shows ten drops. |
| WaterVm.StepKeepsCount | Foxwood/ViewModels/Water/WaterGameViewModel.swift:112-133 | Every step keeps the segment count one more than the score outside the initial state. |
| WaterVm.WaterGameViewModel.constructor | Foxwood/ViewModels/Water/WaterGameViewModel.swift:9-28 | `init` gives no snake, no score, the full 30 s, heading down, in the initial state with no timer. |
| WaterVm.WaterGameViewModel.UpdateLayout | Foxwood/ViewModels/Water/WaterGameViewModel.swift:31-48 | The game area follows the screen. Only from the initial state is a game started, with the snake at the area's centre and the countdown running; otherwise nothing else changes. |
| WaterVm.WaterGameViewModel.HandleDrag | Foxwood/ViewModels/Water/WaterGameViewModel.swift:50-66 | The direction becomes what the drag classifies as. |
| WaterVm.WaterGameViewModel.StartGame | Foxwood/ViewModels/Water/WaterGameViewModel.swift:68-71 | A reset followed by the countdown from 3. |
| WaterVm.WaterGameViewModel.CompleteGame | Foxwood/ViewModels/Water/WaterGameViewModel.swift:73-76 | A verdict is reported exactly when the game is finished. |
| WaterVm.WaterGameViewModel.Cleanup | Foxwood/ViewModels/Water/WaterGameViewModel.swift:78-81 | Both timers stop and the game state stays as it is. |
| WaterVm.WaterGameViewModel.StartCountdown | Foxwood/ViewModels/Water/WaterGameViewModel.swift:84-88 | The countdown from 3 is shown and its timer runs. |
| WaterVm.WaterGameViewModel.CountdownTick | Foxwood/ViewModels/Water/WaterGameViewModel.swift:89-99 | The count drops by one; while positive it is shown, and at zero its timer stops and play starts. |
| WaterVm.WaterGameViewModel.StartGameplay | Foxwood/ViewModels/Water/WaterGameViewModel.swift:101-110 | Play starts with the game timer running. |
| WaterVm.WaterGameViewModel.GameTick | Foxwood/ViewModels/Water/WaterGameViewModel.swift:105-109 | Each firing of the game timer is one `updateGameState`. |
| WaterVm.WaterGameViewModel.UpdateGameState | Foxwood/ViewModels/Water/WaterGameViewModel.swift:112-133 | One step of play, as `Step` describes it; the game timer stops when the game finishes. |
| WaterVm.WaterGameViewModel.MoveSnake | Foxwood/ViewModels/Water/WaterGameViewModel.swift:135-175 | Without a snake nothing moves. A head that would leave the area finishes the game and stays put; otherwise it steps. |
| WaterVm.WaterGameViewModel.CollectDrop | Foxwood/ViewModels/Water/WaterGameViewModel.swift:186-191 | One more point, a new drop and one more segment. |
| WaterVm.WaterGameViewModel.GenerateNewDrop | Foxwood/ViewModels/Water/WaterGameViewModel.swift:198-209 | The drop moves to the drawn position. |
| WaterVm.WaterGameViewModel.AddSegment | Foxwood/ViewModels/Water/WaterGameViewModel.swift:211-237 | One more segment, if there is a snake at all. |
| WaterVm.WaterGameViewModel.ResetPositions | Foxwood/ViewModels/Water/WaterGameViewModel.swift:239-245 | A one-segment snake at the centre of the area, and a new drop. |
| WaterVm.WaterGameViewModel.ResetGame | Foxwood/ViewModels/Water/WaterGameViewModel.swift:247-253 | No score, the full time, heading down, the initial state, and new positions. |
| WaterVm.WaterGameViewModel.FinishGame | Foxwood/ViewModels/Water/WaterGameViewModel.swift:255-260 | The game timer stops, and the game is won exactly when at least ten drops were collected. |
| AchievementModel.AllCasesComplete | Foxwood/Models/Achievement.swift:4-8 | Every achievement type is listed exactly once. |
| AchievementModel.Requirement | Foxwood/Models/Achievement.swift:19-24 | Nights need 10, and food, water and wood need 20 each. |
| AchievementModel.UnlockedMonotone | Foxwood/Models/Achievement.swift:31-33 | An unlocked achievement stays unlocked when its progress grows. |
| AchievementModel.SameIgnoresProgress | Foxwood/Models/Achievement.swift:39-45 | Equality looks at the type only, ignores progress, and is an equivalence. |
| AchievementModel.Initial | Foxwood/Models/Achievement.swift:49-51 | A fresh achievement has the given type and no progress. |
| AchievementModel.InitialLocked | Foxwood/Models/Achievement.swift:49-51 | A fresh achievement is locked, whatever its type. |
| AchievementModel.FirstOfType | Foxwood/ViewModels/Achievement/AchievementsViewModel.swift:21 | The search returns an element of the given type from the set, or none when the set has no such element. |
| AchievementModel.FirstOfTypeUnique | Foxwood/Models/Achievement.swift:39-45 | In a set with one element per type, the search finds that element whatever the iteration order. |
| AchievementModel.InsertKeepsOnePerType | Foxwood/Models/Achievement.swift:39-45 | Inserting into the set keeps one element per type, and the set then holds an element of the inserted type; an insert whose type is already present leaves the set as it was. |
| AchievementsVm.Entry | Foxwood/ViewModels/Achievement/AchievementsViewModel.swift:21-25 | The entry for a type has that type: the stored achievement when there is one, else a fresh one. |
| AchievementsVm.Load | Foxwood/ViewModels/Achievement/AchievementsViewModel.swift:20-26 | The loaded list has one entry per type, in `allCases` order. |
| AchievementsVm.LoadOnePerType | Foxwood/ViewModels/Achievement/AchievementsViewModel.swift:19-27 | Loading yields four entries, one per type in order. Every stored achievement is among them, and any other entry has no progress. |
| AchievementsVm.AchievementStyle | Foxwood/ViewModels/Achievement/AchievementsViewModel.swift:29-35 | An unlocked card is full white and a locked one is black at 80 percent. |
| AchievementsVm.StyleShowsUnlocked | Foxwood/ViewModels/Achievement/AchievementsViewModel.swift:29-35 | A card is white exactly when its progress meets its requirement, and a fresh card is black. |
| AchievementsVm.AchievementsViewModel.constructor | Foxwood/ViewModels/Achievement/AchievementsViewModel.swift:15-17 | `init` loads the list from the stored set. |
| Navigation.ScreenEqualsIsIdentity | Foxwood/Managers/Navigation/NavigationManager.swift:14-29 | Screen `==` is equality of screens, with food-game screens equal only for the same view-model instance. |
| Navigation.Navigated | Foxwood/Managers/Navigation/NavigationManager.swift:43-44 | Navigating shows the target and pushes the current screen on top of the unchanged stack. |
| Navigation.Back | Foxwood/Managers/Navigation/NavigationManager.swift:48-54 | Going back on an empty stack changes nothing; otherwise it shows the top screen and pops it. |
| Navigation.BackUndoesNavigate | Foxwood/Managers/Navigation/NavigationManager.swift:43-53 | Going back after navigating restores both the screen and the stack. |
| Navigation.BackToBottom | Foxwood/Managers/Navigation/NavigationManager.swift:48-54 | Going back as often as the stack is deep shows the first screen pushed, with an empty stack. |
| Navigation.ResetsOnlyFromMenuToBoard | Foxwood/Managers/Navigation/NavigationManager.swift:40-42 | The game is reset exactly on the step from the menu to the board game. |
| Navigation.NavigationManager.constructor | Foxwood/Managers/Navigation/NavigationManager.swift:33-36 | The menu, an empty stack and a new game manager in its default state. |
| Navigation.NavigationManager.Navigate | Foxwood/Managers/Navigation/NavigationManager.swift:38-46 | The current screen is pushed and the target shown. From the menu to the board game the game manager is reset; any other step leaves it untouched. |
| Navigation.NavigationManager.NavigateBack | Foxwood/Managers/Navigation/NavigationManager.swift:48-54 | The previous screen is shown and popped, if there is one. |
| Navigation.NavigationManager.NavigateToMenu | Foxwood/Managers/Navigation/NavigationManager.swift:56-62 | The menu with an empty stack, and the game manager reset. |
| TutorialVm.Index | Foxwood/ViewModels/Tutorial/TutorialViewModel.swift:17 | `firstIndex(of:)` always finds the page, at its first and only place in the order. |
| TutorialVm.StepsMoveByOne | Foxwood/ViewModels/Tutorial/TutorialViewModel.swift:16-34 | Forward moves one place and stays on the last page; backward moves one place back and stays on the welcome page. |
| TutorialVm.NextThenPrevious | Foxwood/ViewModels/Tutorial/TutorialViewModel.swift:16-34 | Forward then back returns to the page from any page but the last, and back then forward from any but the first. |
| TutorialVm.TutorialViewModel.constructor | Foxwood/ViewModels/Tutorial/TutorialViewModel.swift:13 | The tutorial opens on the welcome page. |
| TutorialVm.TutorialViewModel.MoveToNextStep | Foxwood/ViewModels/Tutorial/TutorialViewModel.swift:16-24 | The page becomes the next one, or stays on the last page. |
| TutorialVm.TutorialViewModel.MoveToPreviousStep | Foxwood/ViewModels/Tutorial/TutorialViewModel.swift:26-34 | The page becomes the previous one, or stays on the welcome page. |
| OnboardingVm.Index | Foxwood/ViewModels/Onboarding/OnboardingViewModel.swift:22 | `firstIndex(of:)` always finds the state in the order. |
| OnboardingVm.NextWalk | Foxwood/ViewModels/Onboarding/OnboardingViewModel.swift:21-28 | `next` walks first, second, third, fourth, completed and stays on completed, so four or more steps from anywhere reach completed. |
| OnboardingVm.LastAndCompleted | Foxwood/ViewModels/Onboarding/OnboardingViewModel.swift:13-19 | The last page is the one just before completed, and completed is the final state. |
| OnboardingVm.OnboardingViewModel.constructor | Foxwood/ViewModels/Onboarding/OnboardingViewModel.swift:31-47 | The first page, with the flag as persisted. |
| OnboardingVm.OnboardingViewModel.ButtonText | Foxwood/ViewModels/Onboarding/OnboardingViewModel.swift:41-43 | The button reads "Start" exactly on the last page and "Next" everywhere else. |
| OnboardingVm.OnboardingViewModel.MoveToNextStep | Foxwood/ViewModels/Onboarding/OnboardingViewModel.swift:49-57 | The state becomes its `next()`. On the last page onboarding completes and the flag is persisted as true; elsewhere the flag is kept. |
| OnboardingVm.OnboardingViewModel.CompleteOnboarding | Foxwood/ViewModels/Onboarding/OnboardingViewModel.swift:59-63 | The completed state, with the flag persisted as true. |
| OnboardingVm.OnboardingViewModel.ResetOnboardingState | Foxwood/ViewModels/Onboarding/OnboardingViewModel.swift:65-68 | The first page, with the flag persisted as false. |
| Network.MissingFirstChar | Foxwood/Managers/Network/NetworkManager.swift:48 | A host without the first character of "google.com" does not contain it. |
| Network.InvalidExamples | Foxwood/Managers/Network/NetworkManager.swift:41-53 | The blank pages and Google's hosts are refused, as is a host such as notgoogle.com with "google.com" inside it; the app's own start URL is accepted. |
| Network.FirstValid | Foxwood/Managers/Network/NetworkManager.swift:27-39 | The first acceptable URL of a series is one of them and acceptable; when there is none, every URL is refused. |
| Network.CheckAllKeepsFirstValid | Foxwood/Managers/Network/NetworkManager.swift:27-39 | Once a URL is kept no later check changes it; before that, a series of checks keeps the first acceptable URL reported. |
| Network.NetworkManager.constructor | Foxwood/Managers/Network/NetworkManager.swift:11-25 | A stored string that parses becomes the kept URL and sets the latch; otherwise nothing is kept. |
| Network.NetworkManager.CheckURL | Foxwood/Managers/Network/NetworkManager.swift:27-39 | Once a URL is kept, and for any refused URL, nothing changes. Otherwise the URL is stored and kept and the latch is set, which is one step of `Latch`. |

## Left out

- Views: every SwiftUI view, gesture plumbing, animation and layout. This includes the 2048 swipe-to-direction choice, the board cell enable rule and the mini-game routing of the board view.
- Haptics and sound: `HapticManager` and `SoundManager` calls have no effect on game state and are dropped.
- Persistence: `StorageManager`, `SettingsManager` and `UserDefaults` are replaced by plain fields (the 2048 best score, the onboarding flag, the saved URL).
- Achievement writes: the achievement updates in `GameManager.addResource` and `checkWinCondition` call `updateAchievement`, which the storage manager does not define. They are not modelled; the manager's state and verdict are.
- `Achievement.progressText`: display text only.
- Scheduling: timers, `asyncAfter`, cancellation and weak captures are modelled as flags and explicit tick methods; the timing between firings is not modelled.
- Randomness and identity: random draws and `UUID()` values are parameters; 2048 tiles carry no id.
- Floating point: times and the wood indicator are integers in fixed units. Water positions are `real`, so no rounding or drift is modelled. The accumulated floating-point error of `timeRemaining -= 0.1` or `1/60` is not modelled either.
- Water tail geometry: the `sqrt`-normalised segment spacing in `moveSnake` and `addSegment` is left out. The snake is its head and its segment count, and `WaterVm.Collects` compares squared distances, which is equivalent to the source's distance test.
- Water drop placement: the drop's position is a parameter. `CGFloat.random` on an area less than 54 points across (an empty range) would trap in the source; that case is not modelled.
- `Foxwood/ViewModels/WaterGame/WaterGameViewModel.swift`: a stale second declaration of the water view-model, without `completeGame`; it is not part of this model.
- `Foxwood/Models/FoodItem.swift` redeclares Food.swift's types with other constants (25 s, cap 40). The food engine takes its constants as a parameter, and `SwiftConstantsValid` covers both sets.
- Food miss-tap warning: `missTapWarningDuration` is not declared in either constants enum, so the length of the warning is unknown; the warning timer is a flag with one firing method.
- Food item positions and `updateLayout` (falling x-position, screen insets): geometry only.
- Network: `checkInitialURL` (URLSession) and `getUAgent` (UIDevice), `InitialWebView` and `ContentViewModel` are left out. What `URL(string:)` makes of a stored string is the parameter `parse`.
- `Navigation.Screen` carries the cases `gamesRoot`, `memoryGame`, `game2048` and `ticTacToeGame`, which the navigation root view switches on but Screen does not declare; they compare like the other plain cases.
- `BoardModel.Cell` carries `isCompleted`, which `handleResourceGameCompletion` writes but Game.swift does not declare; it starts false.
- MemoryVm.MemoryGameViewModel.SetupNewGame: as written, `setupNewGame` and `resetGame` do not clear `isProcessingPair`, a pending resolution or a running game timer; the model keeps them, and `Valid` does not claim more.
- `cleanup` of the memory, wood and food view-models only cancels timers; it is modelled for food (`StopTimers`) and water (`Cleanup`), and left out elsewhere.

## Findings

| source | as written | input that shows it | evidently intended | confidence | as-written member | corrected member |
|---|---|---|---|---|---|---|
| Foxwood/ViewModels/2048/Game2048ViewModel.swift:97-100 | The best score is saved only when `game.score > game.bestScore`. The engine's merge already sets `bestScore = max(score, bestScore)` (Game2048.swift line 305), so the condition is never true after a move and storage is never written. | A new game with stored best 0; a left move on a top row `2 2 2 2` scores 8 and raises the engine's best score to 8, but storage keeps 0. | Storage takes the best score whenever the game's best score rises above what is stored. | not executed | Game2048Vm.Game2048ViewModel.MoveAsWritten | Game2048Vm.Game2048ViewModel.Move |
