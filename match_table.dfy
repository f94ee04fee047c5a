/**
 * The `matchs` and `queue` tables behind the HTTP controllers, as in-memory maps
 * and sequences, and the responses the controllers send.
 */
module MatchTable {
  import opened Wrappers

  /** The `status` column. */
  datatype Status = Pending | InProgress | Paused | Finished

  /** A `matchs` row; `currentTurn` is NULL until `startGame` sets it. */
  datatype MatchRow = MatchRow(
    idPlayer1: int,
    idPlayer2: int,
    gameBoard: string,
    status: Status,
    idWinner: Option<string>,
    currentTurn: Option<int>)

  /** The messages the controllers send, one constructor per distinct message. */
  datatype Message =
    | PlayerIdsRequired
    | NotInQueue(missing: seq<int>)
    | MatchCreated(matchId: nat)
    | MatchIdRequired
    | MatchNotFound
    | MatchNotPending
    | MatchStarted
    | MoveFieldsRequired
    | MatchNotInProgress
    | CellTaken
    | PlayerWon(gameBoard: string)
    | MoveDone(gameBoard: string)
    | GameMissingOrStarted
    | GameStarted
    | GameNotInProgress
    | GamePaused
    | GameNotPaused
    | GameResumed
    | MatchAndWinnerRequired
    | GameMissingOrNotInProgress
    | GameEnded

  datatype Response = Response(code: int, message: Message)

  /** A table state: the match rows by id, the queued player ids, the next auto-increment id. */
  datatype Tables = Tables(matchs: map<nat, MatchRow>, queue: seq<int>, nextId: nat)

  /** Every row id was handed out before `nextId`. */
  predicate IdsBelowNext(t: Tables) {
    forall id | id in t.matchs :: id < t.nextId
  }

  /** `t2` differs from `t1` at most in the existing row `id`. */
  predicate OnlyRowChanged(t1: Tables, t2: Tables, id: nat) {
    && t2.queue == t1.queue && t2.nextId == t1.nextId
    && id in t1.matchs && t2.matchs.Keys == t1.matchs.Keys
    && forall other | other in t1.matchs && other != id :: t2.matchs[other] == t1.matchs[other]
  }

  /** A numeric body field is truthy: present and not 0. */
  predicate Present(v: Option<nat>) {
    v.Some? && v.value != 0
  }

  predicate PresentInt(v: Option<int>) {
    v.Some? && v.value != 0
  }

  /** A text body field is truthy: present and not empty. */
  predicate PresentText(v: Option<string>) {
    v.Some? && v.value != ""
  }

  /** The database, reached through `promisePool.query`. */
  class Database {
    var matchs: map<nat, MatchRow>
    var queue: seq<int>
    var nextId: nat

    constructor(queue: seq<int>)
      ensures matchs == map[] && this.queue == queue && nextId == 1
    {
      matchs := map[];
      this.queue := queue;
      nextId := 1;
    }

    function State(): Tables
      reads this
    {
      Tables(matchs, queue, nextId)
    }
  }
}
