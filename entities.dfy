/**
 * The persisted records of the socket server (queue entries, matches, turns) and
 * in-memory stand-ins for the repositories and the socket server's outbound side.
 */
module Entities {
  import opened Wrappers
  import opened SharedTypes
  import opened GameService

  datatype QueueEntry = QueueEntry(id: Id, nickname: string, socketId: SocketId, joinedAt: nat)

  datatype TurnRecord = TurnRecord(playerNumber: PlayerNumber, row: int, col: int)

  /** A match row together with the turns that reference it (the `turns` relation). */
  datatype MatchRecord = MatchRecord(
    player1SocketId: SocketId,
    player1Nickname: string,
    player2SocketId: SocketId,
    player2Nickname: string,
    board: SerialBoard,
    status: GameStatus,
    result: GameResult,
    finishedAt: Option<nat>,
    turns: seq<TurnRecord>)

  /** The stored board reads back as a 3x3 board. */
  predicate ShapeOk(r: MatchRecord) {
    IsGrid(DeserializeBoard(r.board))
  }

  predicate ShapesOk(matches: map<Id, MatchRecord>) {
    forall id | id in matches :: ShapeOk(matches[id])
  }

  /**
   * What every stored match satisfies: a 3x3 board holding one mark per recorded
   * turn, and a result exactly when the match is finished.
   */
  predicate RecordOk(r: MatchRecord) {
    && ShapeOk(r)
    && MarkCount(DeserializeBoard(r.board)) == |r.turns|
    && (r.status == Finished <==> r.result != NoResult)
  }

  /** The queue as `find({ order: { joinedAt: 'ASC' } })` returns it. */
  predicate QueueOrdered(q: seq<QueueEntry>) {
    forall i, j | 0 <= i < j < |q| :: q[i].joinedAt < q[j].joinedAt && q[i].id < q[j].id
  }

  /** The queue, match and turn repositories. */
  class Repositories {
    /** The queue entries, kept in joinedAt order. */
    var queue: seq<QueueEntry>
    /** The match table; each record carries its turns. */
    var matches: map<Id, MatchRecord>
    /** The next generated primary key. */
    var nextId: Id
    /** The next creation timestamp. */
    var clock: nat

    ghost predicate Valid()
      reads this
    {
      && QueueOrdered(queue)
      && (forall i | 0 <= i < |queue| :: queue[i].id < nextId && queue[i].joinedAt < clock)
      && (forall id | id in matches :: id < nextId && RecordOk(matches[id]))
    }

    constructor()
      ensures Valid()
      ensures queue == [] && matches == map[] && nextId == 0 && clock == 0
    {
      queue, matches, nextId, clock := [], map[], 0, 0;
    }
  }

  /** Everything the server has emitted, in order. */
  class Outbox {
    var sent: seq<Emit>

    constructor()
      ensures sent == []
    {
      sent := [];
    }
  }
}
