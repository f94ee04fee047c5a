# Matchmaking server: a Dafny model

This project models the game logic of a two-player matchmaking server. The server
exists in two generations.

- **The socket server** (`server/`) keeps a queue of waiting players. A timer pairs
  the two oldest entries into a 3x3 tic-tac-toe match. Players then move through
  socket events, each carrying a `MakeMovePayload`. Leaving or disconnecting forfeits
  every match in progress.
  - `GameService` is the pure rules engine. It covers move legality, the
    copy-on-write move, the fixed-order line scan, the game result and the board's
    JSON form.
  - `SocketHandler` resolves the socket to a slot. It derives the turn owner from the
    parity of the recorded turns, checks the move, saves the match and its turn, and
    emits per-recipient events.
  - `MatchmakingService` pairs queue entries on every tick of its timer.
- **The HTTP server** (`src/server/`) stores a 9-character board (`'-'` is empty) in
  a `matchs` table.
  - `GameLogic` is the string rules engine. Its `playTurn` updates a `Matchs` object.
  - Two controllers move a row through pending, in progress, paused and finished:
    `gameController` changes statuses, and `matchmakingController` creates a match,
    starts it and plays one move.
  - The `Matchs`, `Queue` and `Players` models are small classes and helpers.
  - A separate connect-four `Match` and `Turn` object pair plays on a 6x7 grid with
    gravity.

How the model is built:

- **Pure code** becomes functions and lemmas: `GameService`, the string engine, the
  `Queue` helpers and the controllers' decisions.
- **Code that updates state** becomes classes with `modifies` clauses:
  - the repositories (`Entities.Repositories`) and the outbound socket log
    (`Entities.Outbox`);
  - the controllers' database (`MatchTable.Database`);
  - `Matchs`, `Players`, and the connect-four `Match` (an `array2` board) with `Turn`.

  Each handler method's `ensures` ties the new state to a specification function of
  the old state. The properties are proved about that function.
- **Inputs instead of effects.** Timers, randomness, clocks and database failures are
  method parameters:
  - the first player's coin flip is `firstPlayer`;
  - the success of a save is `saved`;
  - the current time is `now`;
  - the timer handle is `timer`.

Where the code differs from what one would read into it, the model follows the code:

- `handleMakeMove` writes the mark named by `payload.move.player`, not the mark of
  the resolved slot (`SocketHandler.MarkFollowsPayload`).
- `handleMakeMove` never looks at the match status (`SocketHandler.StatusIsNotChecked`).
- `GAME_START` announces a random first player, but the turn owner of the first move
  is always slot 1 (`MatchmakingService.FirstMoveBelongsToSlotOne`).
- In connect four, dropping and winning test a cell's JavaScript truthiness, so a
  cell holding the empty username counts as free there. The full-board test of
  `updateStatus` only asks for cells that are not `null`.
- In `updateMatch` the selected `game_board` is split into characters. An index
  outside the string reads `undefined`, which is not `'-'`, so an out-of-range
  position is refused like an occupied cell.
- `createMatch` of the HTTP controller counts rows of the queue table. It accepts
  exactly when both distinct players are queued only if no player is queued twice.

## Model

| member | source | states |
|---|---|---|
| GameService.CreateEmptyBoard | server/services/GameService.ts:6-10 | the new board is 3x3 and every cell is null |
| GameService.IsValidMove | server/services/GameService.ts:12-23 | false outside [0,3) for row or column, otherwise whether the target cell is null; its laws are proved by `MakeMove` and `NoDoubleOccupation` |
| GameService.EmptyBoardHasNoMarks | server/services/GameService.ts:6-10 | the empty board holds no mark |
| GameService.MakeMove | server/services/GameService.ts:12-33 | a move is accepted exactly when row and column lie in [0,3) and the cell is null; then the target cell gets 'X' for `player === 1` and 'O' for any other value, every other cell is as before, and the input board is a value that is not changed |
| GameService.NoDoubleOccupation | server/services/GameService.ts:22-31 | after an accepted move the same cell is no longer a valid move |
| GameService.MakeMoveAddsOneMark | server/services/GameService.ts:25-33 | an accepted move adds exactly one mark to the board |
| GameService.IsBoardFull | server/services/GameService.ts:35-37 | every cell is not null; its role in the result is proved by `GameResultSpec` |
| GameService.CheckWinner | server/services/GameService.ts:39-77 | the scan started at the first row; proved the first complete line by `CheckWinnerIsFirstLine` |
| GameService.ScanRows | server/services/GameService.ts:40-48 | the row loop, which falls through to the columns; related to the line table by `ScanRowsIsFirstLine` |
| GameService.ScanColumns | server/services/GameService.ts:50-58 | the column loop, which falls through to the diagonals; related to the line table by `ScanColumnsIsFirstLine` |
| GameService.ScanDiagonals | server/services/GameService.ts:60-76 | the main diagonal, then the anti-diagonal, then null |
| GameService.FirstLine | server/services/GameService.ts:39-77 | the first complete line of the eight, in scan order from a given index, or none exactly when no later line is complete |
| GameService.CheckWinnerIsFirstLine | server/services/GameService.ts:39-77 | the row loop, the column loop and the two diagonal tests report the owner of the first complete line of the rows, columns, main diagonal, anti-diagonal table |
| GameService.CheckWinnerSpec | server/services/GameService.ts:39-77 | checkWinner is null exactly when no line holds three equal non-null cells; otherwise it is 1 when the first such line is 'X' and 2 otherwise |
| GameService.CheckWinnerMark | server/services/GameService.ts:39-77 | a winner 1 has a line of 'X' and a winner 2 a line of 'O' |
| GameService.GameResultSpec | server/services/GameService.ts:79-91 | a line wins even on a full board; a full board without a line is a draw; the result is null exactly when there is no line and the board is not full (`isBoardFull`, lines 35-37) |
| GameService.GetGameResult | server/services/GameService.ts:79-91 | winner 1, winner 2, then full board, then null; its laws are proved by `GameResultSpec` |
| GameService.SerializeBoard | server/services/GameService.ts:93-95 | the stored board has the rows and row lengths of the board |
| GameService.DeserializeBoard | server/services/GameService.ts:97-104 | reading keeps the shape of the stored board |
| GameService.DeserializeSerialize | server/services/GameService.ts:93-104 | reading back a stored board gives the board |
| GameService.DeserializeIdempotent | server/services/GameService.ts:97-104 | storing and reading a read board again changes nothing |
| GameService.DeserializeCells | server/services/GameService.ts:97-104 | a cell reads as 'X' or 'O' exactly when it is that string, and as null for any other value |
| SocketHandler.SocketHandler.constructor | server/socket/SocketHandler.ts:20-31 | the handler keeps the repositories and the socket server it is given |
| SocketHandler.CheckMove | server/socket/SocketHandler.ts:80-100 | the participant, turn and legality checks in the source's order, giving the resolved slot and the new board; proved by `AcceptedMoveSpec`, `OutOfTurnOrIllegalRejected` and `StatusIsNotChecked` |
| SocketHandler.MakeMoveEffect | server/socket/SocketHandler.ts:69-159 | the new table and the emits of one make-move event; the specification `HandleMakeMove` is proved against |
| SocketHandler.Forfeit | server/socket/SocketHandler.ts:174-192 | a match finished by a leave, won by the slot the socket does not hold, with the finish time; proved by `LeaveEffectOnMatches` |
| SocketHandler.SocketHandler.HandleJoinQueue | server/socket/SocketHandler.ts:51-67 | a saved join appends one entry with the nickname, the socket, a fresh id and the next timestamp, and emits nothing; a failed save changes no repository and sends ERROR with JOIN_QUEUE_ERROR to the joining socket |
| SocketHandler.SocketHandler.HandleMakeMove | server/socket/SocketHandler.ts:69-159 | the match table and the emits are those of the make-move effect on the old table; the queue is untouched and the repository invariant is kept |
| SocketHandler.MakeMoveEffectAccepted | server/socket/SocketHandler.ts:94-149 | a move that passes the participant, turn and legality checks saves the played match and sends the move notices |
| SocketHandler.UnknownMatchOrStrangerRejected | server/socket/SocketHandler.ts:76-85 | an unknown match, or a socket in neither slot, gets one ERROR with MAKE_MOVE_ERROR and the reason, sent to that socket only, and the table is unchanged |
| SocketHandler.OutOfTurnOrIllegalRejected | server/socket/SocketHandler.ts:87-98 | a participant moving out of turn, or making a move `isValidMove` refuses, gets one ERROR with MAKE_MOVE_ERROR on its own socket and nothing is written |
| SocketHandler.AcceptedMoveSpec | server/socket/SocketHandler.ts:100-119 | an accepted move was the turn owner's and legal; it stores the new board with the payload's mark, appends exactly one turn (resolved slot, row, col) so that the turn owner flips, finishes the match with the result and the finish time `now` when there is one and otherwise keeps status, result and finish time; the players' sockets and nicknames are kept, and every other match is as it was |
| SocketHandler.AcceptedMoveNotices | server/socket/SocketHandler.ts:121-149 | both players get the same MOVE_MADE, naming the other slot as next turn when there is no result and null otherwise; both also get GAME_END with the result exactly when there is one |
| SocketHandler.NextTurnIsNeverTheMover | server/socket/SocketHandler.ts:121-134 | the announced next turn is never the mover's slot |
| SocketHandler.StatusIsNotChecked | server/socket/SocketHandler.ts:80-98 | the checks give the same verdict whatever the match status is, so a finished match still accepts moves |
| SocketHandler.MarkFollowsPayload | server/socket/SocketHandler.ts:94-100 | slot 1 moving first with `player: 2` is accepted as slot 1 and writes an 'O' |
| SocketHandler.MakeMoveKeepsRecordsOk | server/socket/SocketHandler.ts:100-119 | after a move every stored match still has one mark per recorded turn, and a result exactly when finished |
| SocketHandler.SocketHandler.SaveMove | server/socket/SocketHandler.ts:100-119 | the match row becomes the played match: new board, and result, status and finish time when decided, then the appended turn |
| SocketHandler.SocketHandler.BroadcastMove | server/socket/SocketHandler.ts:121-149 | the log grows by exactly the move notices |
| SocketHandler.LiveMatchesAsSpec | server/socket/SocketHandler.ts:163-169 | each lookup finds exactly the in-progress matches with the socket in that slot, in ascending id order |
| SocketHandler.LeaveTargetsSpec | server/socket/SocketHandler.ts:163-171 | a leave targets exactly the in-progress matches in which the socket plays either slot |
| SocketHandler.ForfeitAllSpec | server/socket/SocketHandler.ts:173-194 | after the loop each target is its forfeited copy and every other match is as it was |
| SocketHandler.ForfeitNoticesSpec | server/socket/SocketHandler.ts:173-190 | the loop sends one GAME_END per target, in target order |
| SocketHandler.LeaveEffectOnMatches | server/socket/SocketHandler.ts:161-194 | every in-progress match of the socket ends finished, won by the other slot, with board and turns kept; every other match is untouched |
| SocketHandler.LeaveNoticesGoToOpponents | server/socket/SocketHandler.ts:176-190 | each GAME_END goes only to the opponent of the leaving socket and carries that opponent's win |
| SocketHandler.RepeatedLeaveIsNoOp | server/socket/SocketHandler.ts:163-194 | a second leave finds no match to forfeit |
| SocketHandler.ForfeitAllKeepsRecordsOk | server/socket/SocketHandler.ts:173-194 | forfeiting keeps every record's invariant |
| SocketHandler.FindEntry | server/socket/SocketHandler.ts:196-198 | the index of the socket's first queue entry, or none when no entry has that socket |
| SocketHandler.QueueAfterLeaveSpec | server/socket/SocketHandler.ts:196-202 | the socket's first entry, if any, is removed, and the others stay in order |
| SocketHandler.QueueAfterLeaveOrdered | server/socket/SocketHandler.ts:196-202 | removal keeps the queue in joinedAt order and adds no entry |
| SocketHandler.SocketHandler.HandleLeaveGame | server/socket/SocketHandler.ts:161-206 | the table is the old one with every target forfeited; the log grows by the forfeit notices; the socket's queue entry is removed; the invariant is kept |
| SocketHandler.SocketHandler.ForfeitMatches | server/socket/SocketHandler.ts:173-194 | the loop's table and log are the forfeits and notices of the targets, each read before the loop |
| SocketHandler.SocketHandler.ForfeitOne | server/socket/SocketHandler.ts:174-193 | one target becomes finished with the other slot's win and a finish time, with one GAME_END to the opponent |
| SocketHandler.SocketHandler.LeaveQueue | server/socket/SocketHandler.ts:196-202 | the queue loses the socket's first entry, if any |
| SocketHandler.SocketHandler.HandleDisconnect | server/socket/SocketHandler.ts:208-211 | a disconnect has exactly the effect of a leave |
| MatchmakingService.MatchmakingService.constructor | server/services/MatchmakingService.ts:12-23 | no timer is running and the interval is 5000 ms |
| MatchmakingService.MatchmakingService.Start | server/services/MatchmakingService.ts:25-31 | the interval handle is recorded |
| MatchmakingService.MatchmakingService.Stop | server/services/MatchmakingService.ts:33-39 | the interval handle is cleared |
| MatchmakingService.PairingNotices | server/services/MatchmakingService.ts:78-108 | MATCH_FOUND to each player naming the other, then GAME_START to both; stated by `CreateMatch` |
| MatchmakingService.TickEffect | server/services/MatchmakingService.ts:41-60 | the state after one tick; the specification `CheckQueueForMatches` is proved against, with laws in `ShortQueueIsIdle` and `PairsTheTwoOldest` |
| MatchmakingService.UnqueueSpec | server/services/MatchmakingService.ts:55 | removal keeps exactly the entries whose id was not removed |
| MatchmakingService.ShortQueueIsIdle | server/services/MatchmakingService.ts:49 | with fewer than two entries a tick creates no match, sends nothing and keeps the queue |
| MatchmakingService.PairsTheTwoOldest | server/services/MatchmakingService.ts:43-56 | on the ordered queue a tick removes exactly the two oldest entries and keeps the rest in order; slot 1 is the oldest and slot 2 the second, and both joined before every entry left in the queue; at most one match is added; a failed save adds none and sends nothing, though the two entries are still removed |
| MatchmakingService.NewMatchSpec | server/services/MatchmakingService.ts:64-72 | the created match is in progress on an empty 3x3 board, with no turns and no result |
| MatchmakingService.FirstMoveBelongsToSlotOne | server/services/MatchmakingService.ts:96-108 | GAME_START carries the coin flip, yet the turn owner of a new match is slot 1 and a first move from slot 2 is refused as not its turn |
| MatchmakingService.TickKeepsRecordsOk | server/services/MatchmakingService.ts:41-60 | a tick keeps the queue ordered and every stored match valid |
| MatchmakingService.MatchmakingService.CheckQueueForMatches | server/services/MatchmakingService.ts:41-60 | queue, table, id counter and log are those of one tick on the old state, and the invariant is kept |
| MatchmakingService.MatchmakingService.CreateMatch | server/services/MatchmakingService.ts:62-114 | a saved match is stored under a fresh id, and the log grows by MATCH_FOUND to player 1 (number 1, opponent player 2), MATCH_FOUND to player 2 (number 2, opponent player 1), then GAME_START to both with the same id, board and first player; a failed save changes and sends nothing |
| GameLogic.StartNewMatch | src/server/game_logic.ts:7-9 | a new match has board "---------", status pending, no winner, and player 1's id to move |
| GameLogic.PlayTurn | src/server/game_logic.ts:12-37 | an invalid position returns false and leaves the match unchanged; a valid one writes 'X' for player 1 (by id) and 'O' otherwise and returns true; then the mover is declared winner on a truthy winner, and otherwise the turn passes to the other player |
| GameLogic.IsValidMove | src/server/game_logic.ts:40-42 | the position lies in [0,9) and reads '-'; proved by `FullBoardHasNoMove` and `NoDoubleOccupation` |
| GameLogic.ApplyMove | src/server/game_logic.ts:45-47 | the two clamped substrings around the symbol; proved by `ApplyMoveSpec` |
| GameLogic.CheckWinner | src/server/game_logic.ts:50-64 | the first cell of the first matching pattern, or null; proved by `CheckWinnerSpec` |
| GameLogic.IsBoardFull | src/server/game_logic.ts:67-69 | the board has no '-'; proved by `FullBoardHasNoMove` |
| GameLogic.NextTurn | src/server/game_logic.ts:33 | the other player's id; proved by `NextTurnIsInMatch` |
| GameLogic.FullBoardHasNoMove | src/server/game_logic.ts:67-69 | a nine-cell board is full exactly when no position is a valid move |
| GameLogic.ApplyMoveSpec | src/server/game_logic.ts:45-47 | inside the board and with a one-character symbol, the length is kept, the symbol is at the position and every other character is unchanged |
| GameLogic.NoDoubleOccupation | src/server/game_logic.ts:40-47 | a valid position is no longer valid after the move |
| GameLogic.FirstPattern | src/server/game_logic.ts:57-61 | the first matching pattern from a given index, in listed order, or none exactly when no later pattern matches |
| GameLogic.CheckWinnerSpec | src/server/game_logic.ts:50-64 | null exactly when no pattern has three equal cells that are not '-'; otherwise `board[a]` of the first such pattern |
| GameLogic.NineCellWinnerIsAMark | src/server/game_logic.ts:50-64 | on nine cells a non-null winner is a character other than '-' |
| GameLogic.NewLineBelongsToMover | src/server/game_logic.ts:22-30 | on a board without a line, a line after a move carries the symbol just written |
| GameLogic.NextTurnIsInMatch | src/server/game_logic.ts:33 | the next turn goes to a player for whom `isPlayerInMatch` holds, never to the mover when both players differ, and goes to player 2 exactly when the mover played 'X' |
| MatchmakingController.CheckWinAgreesWithCheckWinner | src/server/controllers/matchmakingController.ts:6-16 | on nine cells a line of a mark other than '-' makes the string engine's winner non-null, and a non-null winner has a full line of its mark |
| MatchmakingController.CheckWin | src/server/controllers/matchmakingController.ts:6-16 | some pattern has the mark in all three cells; related to the string engine by `CheckWinAgreesWithCheckWinner` |
| MatchmakingController.CreateMatchSpec | src/server/controllers/matchmakingController.ts:20-50 | the response and tables of createMatch; proved by `CreateMatchDecision` and `NotInQueueNamesTheMissing` |
| MatchmakingController.StartMatchSpec | src/server/controllers/matchmakingController.ts:53-80 | the response and tables of startMatch; proved by `StartMatchDecision` |
| MatchmakingController.UpdateMatchSpec | src/server/controllers/matchmakingController.ts:83-131 | the response and tables of updateMatch; proved by `UpdateMatchRefusals` and `UpdateMatchPlacement` |
| MatchmakingController.QueueRowsSpec | src/server/controllers/matchmakingController.ts:29-32 | the selection holds exactly the queued ids equal to one of the two requested ids |
| MatchmakingController.QueueRowsCount | src/server/controllers/matchmakingController.ts:29-34 | on a queue without duplicates the selection has one row per distinct queued requested id |
| MatchmakingController.CreateMatchDecision | src/server/controllers/matchmakingController.ts:20-50 | falsy ids are refused with 400; any refusal changes nothing; without duplicate queue rows and with distinct ids the match is created exactly when both players are queued; a created match is a new pending row on "---------" under the next id |
| MatchmakingController.NotInQueueNamesTheMissing | src/server/controllers/matchmakingController.ts:34-38 | the refusal names exactly the requested ids that are not queued |
| MatchmakingController.StartMatchDecision | src/server/controllers/matchmakingController.ts:53-80 | a missing match is 404; success exactly for a pending match, and then only its status becomes in progress; otherwise nothing changes |
| MatchmakingController.UpdateMatchRefusals | src/server/controllers/matchmakingController.ts:83-110 | success exactly when all fields are given, the match exists, is in progress and has '-' at the position (so an out-of-range position is refused); a refusal changes nothing |
| MatchmakingController.UpdateMatchPlacement | src/server/controllers/matchmakingController.ts:105-126 | an accepted move changes exactly its cell, to 'X' for "player1" and 'O' otherwise; a winning move finishes the match with that player as winner; otherwise only the board changes and the match stays in progress |
| MatchmakingController.CreateMatch | src/server/controllers/matchmakingController.ts:20-50 | the response and the new tables are the create-match decision on the old tables |
| MatchmakingController.StartMatch | src/server/controllers/matchmakingController.ts:53-80 | the response and the new tables are the start-match decision on the old tables |
| MatchmakingController.UpdateMatch | src/server/controllers/matchmakingController.ts:83-131 | the array write and join give the response and tables of the update-match decision |
| GameController.StartGameTransition | src/server/controllers/gameController.ts:7-35 | a missing id is refused; only a pending match starts, with current turn 1; otherwise nothing changes |
| GameController.StartGameSpec | src/server/controllers/gameController.ts:7-35 | the response and tables of startGame; proved by `StartGameTransition` |
| GameController.PauseGameSpec | src/server/controllers/gameController.ts:38-61 | the response and tables of pauseGame; proved by `PauseGameTransition` |
| GameController.ResumeGameSpec | src/server/controllers/gameController.ts:64-87 | the response and tables of resumeGame; proved by `ResumeGameTransition` |
| GameController.EndGameSpec | src/server/controllers/gameController.ts:90-118 | the response and tables of endGame; proved by `EndGameTransition` |
| GameController.PauseGameTransition | src/server/controllers/gameController.ts:38-61 | only an in-progress match pauses; only its status changes |
| GameController.ResumeGameTransition | src/server/controllers/gameController.ts:64-87 | only a paused match resumes; only its status changes |
| GameController.EndGameTransition | src/server/controllers/gameController.ts:90-118 | both ids are required; only an in-progress match ends, finished with the given winner |
| GameController.StartGame | src/server/controllers/gameController.ts:7-35 | response and tables are the start-game decision on the old tables |
| GameController.PauseGame | src/server/controllers/gameController.ts:38-61 | response and tables are the pause decision on the old tables |
| GameController.ResumeGame | src/server/controllers/gameController.ts:64-87 | response and tables are the resume decision on the old tables |
| GameController.EndGame | src/server/controllers/gameController.ts:90-118 | response and tables are the end-game decision on the old tables |
| MatchLifecycle.HandleSteps | src/server/controllers/gameController.ts:16-112 | any controller request keeps every row, moves its status only along pending to in progress, in progress to and from paused, and in progress to finished, and never changes a finished row |
| MatchLifecycle.FinishedIsFinal | src/server/controllers/gameController.ts:16-112 | no sequence of requests changes or removes a finished match |
| MatchLifecycle.NoShortcutToFinished | src/server/controllers/gameController.ts:98-112 | one request finishes a match only if it was in progress |
| ConnectFourMatch.Match.constructor | src/server/models/Match.ts:12-22 | a new match has a 6x7 board of null, status waiting and no winner |
| ConnectFourMatch.LandingRow | src/server/models/Match.ts:28-33 | the lowest cell of the column that is not truthy, or none when every cell is truthy |
| ConnectFourMatch.Drop | src/server/models/Match.ts:25-35 | the grid after dropPiece, or none when it returns false; proved by `DropSpec` and `DropKeepsGravity` |
| ConnectFourMatch.DropSpec | src/server/models/Match.ts:25-35 | a column outside [0,7) or a full column refuses the piece; an in-range column with a cell that is not truthy accepts it; an accepted piece lands in the free cell with the largest row index, and no other cell changes |
| ConnectFourMatch.DropKeepsGravity | src/server/models/Match.ts:28-33 | dropping keeps the occupied cells of each column in one block ending at row 5 |
| ConnectFourMatch.Match.DropPiece | src/server/models/Match.ts:25-35 | returns true exactly when the drop is possible; the board becomes the dropped grid, or stays as it was |
| ConnectFourMatch.FirstFour | src/server/models/Match.ts:44-64 | the first four-in-a-row the nested loops meet from a position: a truthy cell starting four equal cells at or after it, with no four at any position the scan visits between the two |
| ConnectFourMatch.FirstFourNone | src/server/models/Match.ts:44-65 | the scan finds nothing exactly when no four starts at or after the position |
| ConnectFourMatch.CheckWinnerSpec | src/server/models/Match.ts:38-66 | there is a winner exactly when some truthy cell starts four equal cells to the right, down, down-right or down-left; the winner is decided by the first such four in row, column and direction order, and is player 1 when its cell holds player 1's username |
| ConnectFourMatch.WinnerFor | src/server/models/Match.ts:38-66 | the player named by the first four's cell, or null; proved by `CheckWinnerSpec` |
| ConnectFourMatch.IsFull | src/server/models/Match.ts:74 | every cell is not null |
| ConnectFourMatch.StatusAfter | src/server/models/Match.ts:69-79 | the status and winner updateStatus leaves; proved by `StatusAfterSpec` |
| ConnectFourMatch.FalsyCellIsSkipped | src/server/models/Match.ts:46-47 | a cell that is not truthy starts no four |
| ConnectFourMatch.Match.CheckWinner | src/server/models/Match.ts:38-66 | the nested loops return the winner of the first four in scan order |
| ConnectFourMatch.Match.FirstDirection | src/server/models/Match.ts:49-62 | the first direction with four equal cells from a truthy cell, or none |
| ConnectFourMatch.Match.CountFrom | src/server/models/Match.ts:50-58 | the count reaches 4 exactly when the next three cells along the direction are on the board and equal to the start |
| ConnectFourMatch.StatusAfterSpec | src/server/models/Match.ts:69-79 | finished exactly with a winner or a full board (no null cell); the winner is set only when there is one and is one of the two players; in progress otherwise |
| ConnectFourMatch.Match.UpdateStatus | src/server/models/Match.ts:69-79 | status and winner become the status-after of the grid and the old winner |
| ConnectFourTurn.Turn.constructor | src/server/models/Turn.ts:11-17 | the match, player and column are set once and are constants |
| ConnectFourTurn.Turn.Play | src/server/models/Turn.ts:20-26 | returns the drop's result; a failed drop leaves board, status and winner as they were; a successful one places the piece and recomputes the status |
| MatchsModel.Matchs.constructor | src/server/models/Matchs.ts:13-31 | the fields are the arguments, with defaults "---------", pending, no winner and turn 1 |
| MatchsModel.Matchs.IsPlayerInMatch | src/server/models/Matchs.ts:34-36 | the id is player 1's or player 2's; used by `GameLogic.NextTurnIsInMatch` |
| MatchsModel.Matchs.IsMatchOver | src/server/models/Matchs.ts:39-41 | the status is finished; stated by `DeclareWinner` and `ResetBoard` |
| MatchsModel.Matchs.DeclareWinner | src/server/models/Matchs.ts:44-48 | the winner is set, the status is finished so `isMatchOver` holds, and board and turn are unchanged |
| MatchsModel.Matchs.ResetBoard | src/server/models/Matchs.ts:51-55 | board "---------", pending, no winner, `isMatchOver` false, and the turn is unchanged |
| QueueModel.GetFirstInQueue | src/server/models/Queue.ts:29-31 | null exactly for the empty queue, otherwise its first entry |
| QueueModel.IsPlayerInQueue | src/server/models/Queue.ts:19-21 | some entry carries the player's id; used by `RemovedPlayerIsGone` and `RemoveAbsentIsIdentity` |
| QueueModel.RemoveFromQueue | src/server/models/Queue.ts:24-26 | the filter that drops the player's entries; proved by `RemoveFromQueueSpec`, `RemoveFromQueueAppend` and `RemoveFromQueueIdempotent` |
| QueueModel.ClearQueue | src/server/models/Queue.ts:34-36 | the empty list; proved by `FirstAndClearedQueue` |
| QueueModel.RemoveFromQueueSpec | src/server/models/Queue.ts:24-26 | removal keeps exactly the entries of other players |
| QueueModel.RemoveFromQueueAppend | src/server/models/Queue.ts:24-26 | removal distributes over concatenation, so the order of what remains is kept |
| QueueModel.RemovedPlayerIsGone | src/server/models/Queue.ts:19-26 | after removal `isPlayerInQueue` is false for that player |
| QueueModel.RemoveAbsentIsIdentity | src/server/models/Queue.ts:19-26 | removing a player who is not queued gives an equal list |
| QueueModel.RemoveFromQueueIdempotent | src/server/models/Queue.ts:24-26 | removing twice is removing once |
| QueueModel.FirstAndClearedQueue | src/server/models/Queue.ts:19-36 | the first entry's player is queued; the cleared queue is empty and holds nobody |
| PlayersModel.Players.constructor | src/server/models/Players.ts:6-10 | the id, pseudonym and date are the arguments |
| PlayersModel.Players.UpdatePseudo | src/server/models/Players.ts:18-25 | a non-empty pseudonym replaces the old one; the empty one leaves it unchanged |
| PlayersModel.Players.IsEqual | src/server/models/Players.ts:28-30 | the ids are equal; proved an equivalence by `IsEqualIsAnEquivalence` |
| PlayersModel.IsEqualIsAnEquivalence | src/server/models/Players.ts:28-30 | `isEqual` holds exactly for equal ids, so it is reflexive, symmetric and transitive |
| PlayersModel.Players.FromDB | src/server/models/Players.ts:33-35 | a fresh player with the row's id, pseudonym and date |

## Left out

- Sockets, HTTP, the database driver and TypeORM are not modelled. Repositories and tables are maps and sequences; emits and responses are values.
- Asynchronous interleavings are not modelled: every handler runs to completion before the next event.
- Timers are not modelled. The model does not capture the interval of the matchmaking tick or the one-second delay before GAME_START, so GAME_START sits in the log right after MATCH_FOUND. One call of `CheckQueueForMatches` is one tick, and the timer handle is a parameter of `Start`.
- `Math.random` is not modelled; the coin flip is the `firstPlayer` parameter.
- Database failures are modelled only as the `saved` flags of joining the queue and creating a match. Other failing saves and every 500 response are left out.
- Console output is left out. Error message strings are left out beyond the ERROR reasons, the ERROR `code` values and the message kinds of the HTTP responses.
- Dates are natural numbers. Generated uuids and auto-increment ids are counters that are never reused.
- The database's `find` order is taken as ascending id, for the order of the matches a leave visits.
- Two queue entries with the same `joinedAt` are not modelled. The `@CreateDateColumn` timestamp can tie for two joins at the same instant, and the order the database then returns for `order: { joinedAt: 'ASC' }` is left out. Here every join gets a strictly later timestamp, and `PairsTheTwoOldest` relies on that strict order.
- The entry the leave's `findOne({ where: { socketId } })` returns when a socket has several queue entries is taken as the first one in queue order; the database's choice is not modelled.
- `Turns.recordTurn` (the turn table of the HTTP server) is not modelled; it does not touch the match.
- `toJSON` is not modelled.
- `Matchs.fromDB`, `Matchs.fromDBWithPlayers`, `deleteMatch` and `displayInfo` are not modelled. They only copy rows, delete a row or print.
- The routes, the server bootstrap and the clients are not part of this model.
- JavaScript coercions are modelled only in part:
  - a non-integer position or column is not modelled;
  - the `row`, `col` and `player` of a socket `GameMove` are integers here; a fractional or non-numeric value reaching `isValidMove` and `makeMove` is not modelled;
  - a request field of the wrong JSON type is not modelled;
  - a falsy body field (missing, 0 or "") counts as missing;
  - `startMatch` takes its id from the path, which is always present when the route matches.
- MatchmakingController.CreateMatchDecision: the exact condition "both players are queued" is stated only for a queue without duplicate ids and for two distinct ids. With duplicates the code accepts on two rows of one player; the model keeps that behaviour in `QueueRows`, but no lemma states it.
