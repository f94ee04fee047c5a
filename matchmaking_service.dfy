/**
 * The matchmaking tick: pair the two oldest queue entries into a new in-progress
 * match, tell both players, and take them off the queue. The interval timer is a
 * field the service sets and clears; one call of CheckQueueForMatches is one tick.
 */
module MatchmakingService {
  import opened Wrappers
  import opened SharedTypes
  import opened GameService
  import opened Entities
  import opened SocketHandler

  /** The match row `createMatch` saves: slot 1 is the older entry, the board is empty. */
  function NewMatchRecord(p1: QueueEntry, p2: QueueEntry): MatchRecord {
    MatchRecord(p1.socketId, p1.nickname, p2.socketId, p2.nickname,
                SerializeBoard(CreateEmptyBoard()), InProgress, NoResult, None, [])
  }

  function AsPlayer(e: QueueEntry): Player {
    Player(e.id, e.nickname, e.socketId)
  }

  /** MATCH_FOUND to each player naming the other, then GAME_START to both. */
  function PairingNotices(id: Id, p1: QueueEntry, p2: QueueEntry, firstPlayer: PlayerNumber): seq<Emit> {
    var start := GameStart(id, CreateEmptyBoard(), firstPlayer);
    [ Emit(p1.socketId, MatchFound(AsPlayer(p2), 1)),
      Emit(p2.socketId, MatchFound(AsPlayer(p1), 2)),
      Emit(p1.socketId, start),
      Emit(p2.socketId, start) ]
  }

  /** The queue without the entries whose id is in `ids` (`queueRepository.remove`). */
  function Unqueue(q: seq<QueueEntry>, ids: set<Id>): seq<QueueEntry> {
    if q == [] then []
    else (if q[0].id in ids then [] else [q[0]]) + Unqueue(q[1..], ids)
  }

  datatype Tick = Tick(queue: seq<QueueEntry>, matches: map<Id, MatchRecord>, nextId: Id, emits: seq<Emit>)

  /**
   * One tick on the stored queue `q`: nothing below two entries; otherwise the match
   * is saved (when `saved`) and the two entries are removed in either case, since the
   * failure of `createMatch` is swallowed.
   */
  function TickEffect(q: seq<QueueEntry>, m: map<Id, MatchRecord>, nextId: Id, firstPlayer: PlayerNumber, saved: bool): Tick {
    if |q| < 2 then Tick(q, m, nextId, [])
    else
      var rest := Unqueue(q, {q[0].id, q[1].id});
      if saved then Tick(rest, m[nextId := NewMatchRecord(q[0], q[1])], nextId + 1, PairingNotices(nextId, q[0], q[1], firstPlayer))
      else Tick(rest, m, nextId, [])
  }

  lemma {:induction false} UnqueueSpec(q: seq<QueueEntry>, ids: set<Id>)
    ensures forall e :: e in Unqueue(q, ids) <==> e in q && e.id !in ids
    ensures |Unqueue(q, ids)| <= |q|
  {
    if q != [] {
      UnqueueSpec(q[1..], ids);
      assert forall e :: e in q <==> e == q[0] || e in q[1..];
    }
  }

  lemma {:induction false} UnqueueNoneMatching(q: seq<QueueEntry>, ids: set<Id>)
    requires forall k | 0 <= k < |q| :: q[k].id !in ids
    ensures Unqueue(q, ids) == q
  {
    if q != [] {
      UnqueueNoneMatching(q[1..], ids);
      assert [q[0]] + q[1..] == q;
    }
  }

  /** With fewer than two entries a tick creates nothing, sends nothing and keeps the queue. */
  lemma ShortQueueIsIdle(q: seq<QueueEntry>, m: map<Id, MatchRecord>, nextId: Id, firstPlayer: PlayerNumber, saved: bool)
    requires |q| < 2
    ensures TickEffect(q, m, nextId, firstPlayer, saved) == Tick(q, m, nextId, [])
  {
  }

  /**
   * On the ordered queue a tick removes exactly the two oldest entries, keeps every
   * later one in order, and adds at most one match, whose slot 1 is the oldest entry.
   */
  lemma PairsTheTwoOldest(q: seq<QueueEntry>, m: map<Id, MatchRecord>, nextId: Id, firstPlayer: PlayerNumber, saved: bool)
    requires QueueOrdered(q) && |q| >= 2
    requires nextId !in m
    ensures var t := TickEffect(q, m, nextId, firstPlayer, saved);
      && t.queue == q[2..]
      && q[0] !in t.queue && q[1] !in t.queue && q[0].joinedAt < q[1].joinedAt
      && (forall e | e in t.queue :: q[1].joinedAt < e.joinedAt)
      && (saved ==> t.matches.Keys == m.Keys + {nextId} && t.nextId == nextId + 1)
      && (saved ==> t.matches[nextId].player1SocketId == q[0].socketId && t.matches[nextId].player2SocketId == q[1].socketId)
      && (saved ==> forall id | id in m :: t.matches[id] == m[id])
      && (!saved ==> t.matches == m && t.nextId == nextId && t.emits == [])
  {
    assert q == [q[0]] + ([q[1]] + q[2..]);
    UnqueueNoneMatching(q[2..], {q[0].id, q[1].id});
    assert Unqueue(q, {q[0].id, q[1].id}) == Unqueue(q[1..], {q[0].id, q[1].id});
    assert q[1..][1..] == q[2..];
  }

  /** The saved match has an empty 3x3 board, no turns, no result and is in progress. */
  lemma NewMatchSpec(p1: QueueEntry, p2: QueueEntry)
    ensures DeserializeBoard(NewMatchRecord(p1, p2).board) == CreateEmptyBoard()
    ensures NewMatchRecord(p1, p2).status == InProgress
    ensures RecordOk(NewMatchRecord(p1, p2))
  {
    DeserializeSerialize(CreateEmptyBoard());
    EmptyBoardHasNoMarks();
  }

  /**
   * Whatever GAME_START announces, the first move belongs to slot 1: the turn owner is
   * derived from zero recorded turns, so slot 2 moving first is refused.
   */
  lemma FirstMoveBelongsToSlotOne(p1: QueueEntry, p2: QueueEntry, firstPlayer: PlayerNumber, move: GameMove)
    requires p1.socketId != p2.socketId
    ensures ShapeOk(NewMatchRecord(p1, p2))
    ensures PairingNotices(0, p1, p2, firstPlayer)[2].event.firstTurn == firstPlayer
    ensures TurnOwner(NewMatchRecord(p1, p2)) == 1
    ensures CheckMove(NewMatchRecord(p1, p2), p2.socketId, move) == Rejected(NotYourTurn)
  {
    NewMatchSpec(p1, p2);
  }

  /** A tick keeps the repositories' invariant. */
  lemma TickKeepsRecordsOk(q: seq<QueueEntry>, m: map<Id, MatchRecord>, nextId: Id, clock: nat, firstPlayer: PlayerNumber, saved: bool)
    requires QueueOrdered(q)
    requires forall i | 0 <= i < |q| :: q[i].id < nextId && q[i].joinedAt < clock
    requires forall id | id in m :: id < nextId && RecordOk(m[id])
    ensures var t := TickEffect(q, m, nextId, firstPlayer, saved);
      && QueueOrdered(t.queue)
      && (forall i | 0 <= i < |t.queue| :: t.queue[i].id < t.nextId && t.queue[i].joinedAt < clock)
      && (forall id | id in t.matches :: id < t.nextId && RecordOk(t.matches[id]))
  {
    if |q| >= 2 {
      PairsTheTwoOldest(q, m, nextId, firstPlayer, saved);
      if saved {
        NewMatchSpec(q[0], q[1]);
      }
    }
  }

  class MatchmakingService {
    const repos: Repositories
    const io: Outbox
    /** The handle of the running interval timer, if any. */
    var checkQueueIntervalId: Option<nat>
    const checkQueueIntervalMs: nat

    constructor(repos: Repositories, io: Outbox)
      ensures this.repos == repos && this.io == io
      ensures checkQueueIntervalId == None && checkQueueIntervalMs == 5000
    {
      this.repos := repos;
      this.io := io;
      checkQueueIntervalId := None;
      checkQueueIntervalMs := 5000;
    }

    /** Starts the interval; `timer` is the handle the runtime returns. */
    method Start(timer: nat)
      modifies this
      ensures checkQueueIntervalId == Some(timer)
    {
      checkQueueIntervalId := Some(timer);
    }

    method Stop()
      modifies this
      ensures checkQueueIntervalId == None
    {
      if checkQueueIntervalId.Some? {
        checkQueueIntervalId := None;
      }
    }

    /** One tick; `firstPlayer` stands for the coin flip and `saved` for the match save succeeding. */
    method CheckQueueForMatches(firstPlayer: PlayerNumber, saved: bool)
      requires repos.Valid()
      modifies repos, io
      ensures repos.Valid()
      ensures var t := TickEffect(old(repos.queue), old(repos.matches), old(repos.nextId), firstPlayer, saved);
        && repos.queue == t.queue && repos.matches == t.matches && repos.nextId == t.nextId
        && io.sent == old(io.sent) + t.emits
      ensures repos.clock == old(repos.clock)
    {
      TickKeepsRecordsOk(repos.queue, repos.matches, repos.nextId, repos.clock, firstPlayer, saved);
      var queueEntries := repos.queue;
      if |queueEntries| >= 2 {
        var player1 := queueEntries[0];
        var player2 := queueEntries[1];
        CreateMatch(player1, player2, firstPlayer, saved);
        repos.queue := Unqueue(repos.queue, {player1.id, player2.id});
      }
    }

    /** Saves the match and sends the notices; a failed save sends nothing. */
    method CreateMatch(player1: QueueEntry, player2: QueueEntry, firstPlayer: PlayerNumber, saved: bool)
      modifies repos, io
      ensures saved ==>
        && repos.matches == old(repos.matches)[old(repos.nextId) := NewMatchRecord(player1, player2)]
        && repos.nextId == old(repos.nextId) + 1
        && io.sent == old(io.sent) + PairingNotices(old(repos.nextId), player1, player2, firstPlayer)
      ensures !saved ==> repos.matches == old(repos.matches) && repos.nextId == old(repos.nextId) && io.sent == old(io.sent)
      ensures repos.queue == old(repos.queue) && repos.clock == old(repos.clock)
    {
      var board := CreateEmptyBoard();
      if !saved {
        return;
      }
      var id := repos.nextId;
      var record := MatchRecord(player1.socketId, player1.nickname, player2.socketId, player2.nickname,
                                SerializeBoard(board), InProgress, NoResult, None, []);
      repos.matches := repos.matches[id := record];
      repos.nextId := repos.nextId + 1;
      io.sent := io.sent + [Emit(player1.socketId, MatchFound(Player(player2.id, player2.nickname, player2.socketId), 1))];
      io.sent := io.sent + [Emit(player2.socketId, MatchFound(Player(player1.id, player1.nickname, player1.socketId), 2))];
      io.sent := io.sent + [Emit(player1.socketId, GameStart(id, board, firstPlayer))];
      io.sent := io.sent + [Emit(player2.socketId, GameStart(id, board, firstPlayer))];
    }
  }
}
