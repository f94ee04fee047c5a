/**
 * The wire and domain types shared by the server: board cells, results,
 * statuses, moves and the socket events with their payloads.
 */
module SharedTypes {
  import opened Wrappers

  /** `'X' | 'O' | null`. */
  datatype Cell = X | O | Empty

  /** A `CellValue[][]`; the rules engine only handles its 3x3 instances (GameService.Board). */
  type GameBoard = seq<seq<Cell>>

  /** The literal type `1 | 2` of player numbers and turns. */
  type PlayerNumber = n: int | n == 1 || n == 2 witness 1

  /** A generated uuid, modelled as a natural number that is never reused. */
  type Id = nat

  type SocketId = string

  datatype GameStatus = Waiting | InProgress | Finished

  /** `'player1_win' | 'player2_win' | 'draw' | null`; NoResult is the `null`. */
  datatype GameResult = Player1Win | Player2Win | Draw | NoResult

  /**
   * A move as the client sends it. `player` is typed `1 | 2` in the source but nothing
   * checks it at run time, so any number can arrive.
   */
  datatype GameMove = GameMove(row: int, col: int, player: int)

  /** The client-to-server payloads. */
  datatype JoinQueuePayload = JoinQueuePayload(nickname: string)
  datatype MakeMovePayload = MakeMovePayload(gameId: Id, move: GameMove)

  datatype Player = Player(id: Id, nickname: string, socketId: SocketId)

  /** The `message` of an ERROR payload, one constructor per message the handlers send. */
  datatype ErrorReason = FailedToJoinQueue | MatchNotFound | PlayerNotInMatch | NotYourTurn | InvalidMove

  const JOIN_QUEUE_ERROR: string := "JOIN_QUEUE_ERROR"
  const MAKE_MOVE_ERROR: string := "MAKE_MOVE_ERROR"

  /**
   * The server-to-client events of `SocketEvents` with their payloads. The
   * `currentTurn` field of GAME_START is `firstTurn` here and that of MOVE_MADE `nextTurn`.
   */
  datatype SocketEvent =
    | MatchFound(opponent: Player, playerNumber: PlayerNumber)
    | GameStart(gameId: Id, board: GameBoard, firstTurn: PlayerNumber)
    | MoveMade(gameId: Id, move: GameMove, board: GameBoard, nextTurn: Option<PlayerNumber>)
    | GameEnd(gameId: Id, result: GameResult, board: GameBoard)
    | Error(reason: ErrorReason, code: string)

  /** `io.to(to).emit(event)` or `socket.emit(event)`: one entry of the outbound log. */
  datatype Emit = Emit(to: SocketId, event: SocketEvent)
}
