/**
 * The socket event handlers: joining the queue, making a move and leaving a
 * game (also on disconnect). Each handler runs to completion before the next
 * event; the repositories are maps and sequences and every emit is appended to
 * the outbox.
 */
module SocketHandler {
  import opened Wrappers
  import opened SharedTypes
  import opened GameService
  import opened Entities

  function ErrorTo(socket: SocketId, reason: ErrorReason): Emit {
    Emit(socket, Error(reason, MAKE_MOVE_ERROR))
  }

  /** Whose turn it is: slot 1 after an even number of recorded turns, slot 2 after an odd one. */
  function TurnOwner(r: MatchRecord): PlayerNumber {
    if |r.turns| % 2 == 0 then 1 else 2
  }

  function Other(n: PlayerNumber): PlayerNumber {
    if n == 1 then 2 else 1
  }

  // ---------------------------------------------------------------------------
  // make_move

  datatype MoveCheck = Rejected(reason: ErrorReason) | Accepted(slot: PlayerNumber, newBoard: Board)

  /**
   * The checks of `handleMakeMove` once the match is found, in the source's order:
   * participant, turn, legality. The status of the match is not consulted.
   */
  function CheckMove(r: MatchRecord, socket: SocketId, move: GameMove): MoveCheck
    requires ShapeOk(r)
  {
    var isPlayer1 := r.player1SocketId == socket;
    var isPlayer2 := r.player2SocketId == socket;
    if !isPlayer1 && !isPlayer2 then Rejected(PlayerNotInMatch)
    else
      var playerNumber: PlayerNumber := if isPlayer1 then 1 else 2;
      if playerNumber != TurnOwner(r) then Rejected(NotYourTurn)
      else
        var board: Board := DeserializeBoard(r.board);
        if !IsValidMove(board, move) then Rejected(InvalidMove)
        else Accepted(playerNumber, MakeMove(board, move).value)
  }

  /** The saved match after an accepted move, with its new turn. */
  function Played(r: MatchRecord, slot: PlayerNumber, move: GameMove, newBoard: Board, now: nat): MatchRecord {
    var result := GetGameResult(newBoard);
    var saved := r.(board := SerializeBoard(newBoard));
    var saved := if result != NoResult then saved.(status := Finished, result := result, finishedAt := Some(now)) else saved;
    saved.(turns := r.turns + [TurnRecord(slot, move.row, move.col)])
  }

  /** MOVE_MADE to both players, then GAME_END to both when the move decided the game. */
  function MoveNotices(id: Id, r: MatchRecord, move: GameMove, newBoard: Board, currentTurn: PlayerNumber): seq<Emit> {
    var result := GetGameResult(newBoard);
    var moveMade := MoveMade(id, move, newBoard, if result == NoResult then Some(Other(currentTurn)) else None);
    var gameEnd := GameEnd(id, result, newBoard);
    [Emit(r.player1SocketId, moveMade), Emit(r.player2SocketId, moveMade)]
    + (if result != NoResult then [Emit(r.player1SocketId, gameEnd), Emit(r.player2SocketId, gameEnd)] else [])
  }

  datatype Effect = Effect(matches: map<Id, MatchRecord>, emits: seq<Emit>)

  /** The new match table and the emits of one make_move event. */
  function MakeMoveEffect(matches: map<Id, MatchRecord>, socket: SocketId, p: MakeMovePayload, now: nat): Effect
    requires ShapesOk(matches)
  {
    if p.gameId !in matches then Effect(matches, [ErrorTo(socket, MatchNotFound)])
    else
      var r := matches[p.gameId];
      match CheckMove(r, socket, p.move)
      case Rejected(reason) => Effect(matches, [ErrorTo(socket, reason)])
      case Accepted(slot, newBoard) =>
        Effect(matches[p.gameId := Played(r, slot, p.move, newBoard, now)], MoveNotices(p.gameId, r, p.move, newBoard, slot))
  }

  /** The effect of a move that passes every check, step by step as the handler performs it. */
  lemma MakeMoveEffectAccepted(matches: map<Id, MatchRecord>, socket: SocketId, p: MakeMovePayload, now: nat, playerNumber: PlayerNumber)
    requires ShapesOk(matches) && p.gameId in matches
    requires matches[p.gameId].player1SocketId == socket || matches[p.gameId].player2SocketId == socket
    requires playerNumber == (if matches[p.gameId].player1SocketId == socket then 1 else 2)
    requires playerNumber == TurnOwner(matches[p.gameId])
    requires IsValidMove(DeserializeBoard(matches[p.gameId].board), p.move)
    ensures var r := matches[p.gameId];
      var newBoard := MakeMove(DeserializeBoard(r.board), p.move).value;
      MakeMoveEffect(matches, socket, p, now)
        == Effect(matches[p.gameId := Played(r, playerNumber, p.move, newBoard, now)],
                  MoveNotices(p.gameId, r, p.move, newBoard, playerNumber))
  {
  }

  /** An unknown match or a socket that plays neither slot gets an ERROR and nothing changes. */
  lemma UnknownMatchOrStrangerRejected(matches: map<Id, MatchRecord>, socket: SocketId, p: MakeMovePayload, now: nat)
    requires ShapesOk(matches)
    requires p.gameId !in matches || (matches[p.gameId].player1SocketId != socket && matches[p.gameId].player2SocketId != socket)
    ensures MakeMoveEffect(matches, socket, p, now).matches == matches
    ensures MakeMoveEffect(matches, socket, p, now).emits
      == [ErrorTo(socket, if p.gameId !in matches then MatchNotFound else PlayerNotInMatch)]
  {
  }

  /** A player moving out of turn, or making an illegal move, is told so and nothing changes. */
  lemma OutOfTurnOrIllegalRejected(matches: map<Id, MatchRecord>, socket: SocketId, p: MakeMovePayload, now: nat)
    requires ShapesOk(matches)
    requires p.gameId in matches
    requires var r := matches[p.gameId];
      && (r.player1SocketId == socket || r.player2SocketId == socket)
      && ((if r.player1SocketId == socket then 1 else 2) != TurnOwner(r)
          || !IsValidMove(DeserializeBoard(r.board), p.move))
    ensures MakeMoveEffect(matches, socket, p, now).matches == matches
    ensures |MakeMoveEffect(matches, socket, p, now).emits| == 1
    ensures MakeMoveEffect(matches, socket, p, now).emits[0].to == socket
    ensures MakeMoveEffect(matches, socket, p, now).emits[0].event.Error?
    ensures MakeMoveEffect(matches, socket, p, now).emits[0].event.code == MAKE_MOVE_ERROR
  {
  }

  /**
   * An accepted move stores the board with the payload's mark in the target cell,
   * records exactly one turn for the resolved slot (so the turn owner flips), and
   * finishes the match with the result when the board has one.
   */
  lemma AcceptedMoveSpec(matches: map<Id, MatchRecord>, socket: SocketId, p: MakeMovePayload, now: nat)
    requires ShapesOk(matches)
    requires p.gameId in matches
    requires CheckMove(matches[p.gameId], socket, p.move).Accepted?
    ensures var r := matches[p.gameId];
      var e := MakeMoveEffect(matches, socket, p, now);
      var board: Board := DeserializeBoard(r.board);
      var newBoard := MakeMove(board, p.move).value;
      var slot: PlayerNumber := if r.player1SocketId == socket then 1 else 2;
      && e.matches.Keys == matches.Keys
      && (forall id | id in matches && id != p.gameId :: e.matches[id] == matches[id])
      && slot == TurnOwner(r)
      && IsValidMove(board, p.move)
      && DeserializeBoard(e.matches[p.gameId].board) == newBoard
      && newBoard[p.move.row][p.move.col] == MarkFor(p.move.player)
      && e.matches[p.gameId].turns == r.turns + [TurnRecord(slot, p.move.row, p.move.col)]
      && TurnOwner(e.matches[p.gameId]) == Other(TurnOwner(r))
      && e.matches[p.gameId].player1SocketId == r.player1SocketId
      && e.matches[p.gameId].player1Nickname == r.player1Nickname
      && e.matches[p.gameId].player2SocketId == r.player2SocketId
      && e.matches[p.gameId].player2Nickname == r.player2Nickname
      && (GetGameResult(newBoard) != NoResult ==>
            && e.matches[p.gameId].status == Finished && e.matches[p.gameId].result == GetGameResult(newBoard)
            && e.matches[p.gameId].finishedAt == Some(now))
      && (GetGameResult(newBoard) == NoResult ==>
            && e.matches[p.gameId].status == r.status && e.matches[p.gameId].result == r.result
            && e.matches[p.gameId].finishedAt == r.finishedAt)
  {
    var r := matches[p.gameId];
    var board: Board := DeserializeBoard(r.board);
    DeserializeSerialize(MakeMove(board, p.move).value);
  }

  /**
   * Both players get the same MOVE_MADE; it names the other slot as next unless the
   * game is decided, and exactly then both also get GAME_END with the result.
   */
  lemma AcceptedMoveNotices(matches: map<Id, MatchRecord>, socket: SocketId, p: MakeMovePayload, now: nat)
    requires ShapesOk(matches)
    requires p.gameId in matches
    requires CheckMove(matches[p.gameId], socket, p.move).Accepted?
    ensures var r := matches[p.gameId];
      var e := MakeMoveEffect(matches, socket, p, now);
      var newBoard := CheckMove(r, socket, p.move).newBoard;
      var result := GetGameResult(newBoard);
      && |e.emits| == (if result == NoResult then 2 else 4)
      && e.emits[0].to == r.player1SocketId && e.emits[1].to == r.player2SocketId
      && e.emits[0].event == e.emits[1].event
      && e.emits[0].event == MoveMade(p.gameId, p.move, newBoard,
                                      if result == NoResult then Some(Other(TurnOwner(r))) else None)
      && (result != NoResult ==>
            && e.emits[2] == Emit(r.player1SocketId, GameEnd(p.gameId, result, newBoard))
            && e.emits[3] == Emit(r.player2SocketId, GameEnd(p.gameId, result, newBoard)))
  {
  }

  /** The next turn announced after an accepted move is never the mover's own. */
  lemma NextTurnIsNeverTheMover(matches: map<Id, MatchRecord>, socket: SocketId, p: MakeMovePayload, now: nat)
    requires ShapesOk(matches)
    requires p.gameId in matches
    requires CheckMove(matches[p.gameId], socket, p.move).Accepted?
    ensures MakeMoveEffect(matches, socket, p, now).emits[0].event.nextTurn
            != Some(CheckMove(matches[p.gameId], socket, p.move).slot)
  {
  }

  /** The checks do not look at the status: a finished match is judged like a live one. */
  lemma StatusIsNotChecked(r: MatchRecord, s: GameStatus, socket: SocketId, move: GameMove)
    requires ShapeOk(r)
    ensures CheckMove(r.(status := s), socket, move) == CheckMove(r, socket, move)
  {
  }

  /**
   * The mark written comes from the payload, not from the resolved slot: slot 1
   * sending `player: 2` writes an 'O'.
   */
  lemma MarkFollowsPayload(r: MatchRecord, move: GameMove)
    requires ShapeOk(r) && r.player1SocketId != r.player2SocketId
    requires |r.turns| == 0 && move == GameMove(0, 0, 2)
    requires DeserializeBoard(r.board)[0][0] == Empty
    ensures CheckMove(r, r.player1SocketId, move).Accepted?
    ensures CheckMove(r, r.player1SocketId, move).slot == 1
    ensures CheckMove(r, r.player1SocketId, move).newBoard[0][0] == O
  {
  }

  /** The records a move writes keep the table's invariant. */
  lemma {:induction false} MakeMoveKeepsRecordsOk(matches: map<Id, MatchRecord>, socket: SocketId, p: MakeMovePayload, now: nat)
    requires forall id | id in matches :: RecordOk(matches[id])
    ensures ShapesOk(matches)
    ensures var e := MakeMoveEffect(matches, socket, p, now);
      e.matches.Keys == matches.Keys && forall id | id in e.matches :: RecordOk(e.matches[id])
  {
    assert ShapesOk(matches);
    if p.gameId in matches && CheckMove(matches[p.gameId], socket, p.move).Accepted? {
      var r := matches[p.gameId];
      var board: Board := DeserializeBoard(r.board);
      var newBoard := MakeMove(board, p.move).value;
      DeserializeSerialize(newBoard);
      MakeMoveAddsOneMark(board, p.move);
      var r' := MakeMoveEffect(matches, socket, p, now).matches[p.gameId];
      assert DeserializeBoard(r'.board) == newBoard;
      assert RecordOk(r');
    }
  }

  // ---------------------------------------------------------------------------
  // leave_game and disconnect

  /** The in-progress matches with `socket` in the given slot, by ascending id below `k`. */
  function LiveMatchesAs(matches: map<Id, MatchRecord>, socket: SocketId, slot: PlayerNumber, k: nat): seq<Id> {
    if k == 0 then []
    else
      var id := k - 1;
      LiveMatchesAs(matches, socket, slot, id)
      + (if id in matches && matches[id].status == InProgress
            && (if slot == 1 then matches[id].player1SocketId else matches[id].player2SocketId) == socket
         then [id] else [])
  }

  /** `[...matchesAsPlayer1, ...matchesAsPlayer2]`. */
  function LeaveTargets(matches: map<Id, MatchRecord>, socket: SocketId, n: nat): seq<Id> {
    LiveMatchesAs(matches, socket, 1, n) + LiveMatchesAs(matches, socket, 2, n)
  }

  /** The match as the leave loop saves it: finished and won by the slot the socket does not hold. */
  function Forfeit(r: MatchRecord, socket: SocketId, now: nat): MatchRecord {
    r.(status := Finished,
       result := if r.player1SocketId == socket then Player2Win else Player1Win,
       finishedAt := Some(now))
  }

  /** GAME_END to the remaining player only. */
  function ForfeitNotice(id: Id, r: MatchRecord, socket: SocketId): Emit {
    if r.player1SocketId == socket then Emit(r.player2SocketId, GameEnd(id, Player2Win, DeserializeBoard(r.board)))
    else Emit(r.player1SocketId, GameEnd(id, Player1Win, DeserializeBoard(r.board)))
  }

  /** The table after saving the forfeited copy of each target, each read before the loop. */
  function ForfeitAll(m0: map<Id, MatchRecord>, ts: seq<Id>, socket: SocketId, now: nat): map<Id, MatchRecord>
    requires forall i | 0 <= i < |ts| :: ts[i] in m0
  {
    if ts == [] then m0
    else
      var last := ts[|ts| - 1];
      ForfeitAll(m0, ts[..|ts| - 1], socket, now)[last := Forfeit(m0[last], socket, now)]
  }

  function ForfeitNotices(m0: map<Id, MatchRecord>, ts: seq<Id>, socket: SocketId): seq<Emit>
    requires forall i | 0 <= i < |ts| :: ts[i] in m0
  {
    if ts == [] then []
    else
      var last := ts[|ts| - 1];
      ForfeitNotices(m0, ts[..|ts| - 1], socket) + [ForfeitNotice(last, m0[last], socket)]
  }

  /** `queueRepository.findOne({ where: { socketId } })`: the first entry of that socket. */
  function FindEntry(q: seq<QueueEntry>, socket: SocketId): (r: Option<nat>)
    ensures r.Some? ==> r.value < |q| && q[r.value].socketId == socket
    ensures r.Some? ==> forall i | 0 <= i < r.value :: q[i].socketId != socket
    ensures r.None? ==> forall i | 0 <= i < |q| :: q[i].socketId != socket
  {
    if q == [] then None
    else if q[0].socketId == socket then Some(0)
    else match FindEntry(q[1..], socket)
      case None => None
      case Some(i) => Some(i + 1)
  }

  /** The queue after a leave: the socket's first entry, if any, is gone. */
  function QueueAfterLeave(q: seq<QueueEntry>, socket: SocketId): seq<QueueEntry> {
    match FindEntry(q, socket)
    case None => q
    case Some(i) => q[..i] + q[i + 1..]
  }

  lemma {:induction false} LiveMatchesAsSpec(matches: map<Id, MatchRecord>, socket: SocketId, slot: PlayerNumber, k: nat)
    ensures forall id :: id in LiveMatchesAs(matches, socket, slot, k) <==>
      && id < k && id in matches && matches[id].status == InProgress
      && (if slot == 1 then matches[id].player1SocketId else matches[id].player2SocketId) == socket
    ensures forall i, j | 0 <= i < j < |LiveMatchesAs(matches, socket, slot, k)| ::
      LiveMatchesAs(matches, socket, slot, k)[i] < LiveMatchesAs(matches, socket, slot, k)[j]
  {
    if k > 0 {
      var prev := LiveMatchesAs(matches, socket, slot, k - 1);
      LiveMatchesAsSpec(matches, socket, slot, k - 1);
      assert forall i | 0 <= i < |prev| :: prev[i] in prev;
    }
  }

  /** A leave targets exactly the in-progress matches the socket plays in (ids below `n`). */
  lemma LeaveTargetsSpec(matches: map<Id, MatchRecord>, socket: SocketId, n: nat)
    ensures forall id :: id in LeaveTargets(matches, socket, n) <==>
      && id < n && id in matches && matches[id].status == InProgress
      && (matches[id].player1SocketId == socket || matches[id].player2SocketId == socket)
  {
    LiveMatchesAsSpec(matches, socket, 1, n);
    LiveMatchesAsSpec(matches, socket, 2, n);
  }

  lemma {:induction false} ForfeitAllSpec(m0: map<Id, MatchRecord>, ts: seq<Id>, socket: SocketId, now: nat)
    requires forall i | 0 <= i < |ts| :: ts[i] in m0
    ensures ForfeitAll(m0, ts, socket, now).Keys == m0.Keys
    ensures forall id | id in m0 ::
      ForfeitAll(m0, ts, socket, now)[id] == if id in ts then Forfeit(m0[id], socket, now) else m0[id]
  {
    if ts != [] {
      var init := ts[..|ts| - 1];
      ForfeitAllSpec(m0, init, socket, now);
      assert forall id :: id in ts <==> id in init || id == ts[|ts| - 1];
    }
  }

  lemma {:induction false} ForfeitNoticesSpec(m0: map<Id, MatchRecord>, ts: seq<Id>, socket: SocketId)
    requires forall i | 0 <= i < |ts| :: ts[i] in m0
    ensures |ForfeitNotices(m0, ts, socket)| == |ts|
    ensures forall i | 0 <= i < |ts| :: ForfeitNotices(m0, ts, socket)[i] == ForfeitNotice(ts[i], m0[ts[i]], socket)
  {
    if ts != [] {
      ForfeitNoticesSpec(m0, ts[..|ts| - 1], socket);
    }
  }

  /**
   * Leaving finishes every in-progress match of the socket with a win for the other
   * slot and leaves every other match as it was.
   */
  lemma LeaveEffectOnMatches(m0: map<Id, MatchRecord>, socket: SocketId, n: nat, now: nat)
    requires forall id | id in m0 :: id < n
    ensures forall i | 0 <= i < |LeaveTargets(m0, socket, n)| :: LeaveTargets(m0, socket, n)[i] in m0
    ensures var m1 := ForfeitAll(m0, LeaveTargets(m0, socket, n), socket, now);
      && m1.Keys == m0.Keys
      && forall id | id in m0 ::
        if m0[id].status == InProgress && (m0[id].player1SocketId == socket || m0[id].player2SocketId == socket)
        then m1[id].status == Finished
          && m1[id].result == (if m0[id].player1SocketId == socket then Player2Win else Player1Win)
          && m1[id].board == m0[id].board && m1[id].turns == m0[id].turns
        else m1[id] == m0[id]
  {
    LeaveTargetsSpec(m0, socket, n);
    ForfeitAllSpec(m0, LeaveTargets(m0, socket, n), socket, now);
  }

  /** Each GAME_END of a leave goes to the opponent of the leaving socket in that match. */
  lemma LeaveNoticesGoToOpponents(m0: map<Id, MatchRecord>, socket: SocketId, n: nat)
    ensures forall i | 0 <= i < |LeaveTargets(m0, socket, n)| :: LeaveTargets(m0, socket, n)[i] in m0
    ensures var ts := LeaveTargets(m0, socket, n);
      var ns := ForfeitNotices(m0, ts, socket);
      && |ns| == |ts|
      && forall i | 0 <= i < |ts| ::
        && ns[i].to == (if m0[ts[i]].player1SocketId == socket then m0[ts[i]].player2SocketId else m0[ts[i]].player1SocketId)
        && ns[i].event.GameEnd? && ns[i].event.gameId == ts[i]
        && ns[i].event.result == (if m0[ts[i]].player1SocketId == socket then Player2Win else Player1Win)
  {
    LeaveTargetsSpec(m0, socket, n);
    ForfeitNoticesSpec(m0, LeaveTargets(m0, socket, n), socket);
  }

  lemma {:induction false} NoLiveMatchesAs(matches: map<Id, MatchRecord>, socket: SocketId, slot: PlayerNumber, k: nat)
    requires forall id | id in matches && id < k ::
      matches[id].status != InProgress
      || (if slot == 1 then matches[id].player1SocketId else matches[id].player2SocketId) != socket
    ensures LiveMatchesAs(matches, socket, slot, k) == []
  {
    if k > 0 {
      NoLiveMatchesAs(matches, socket, slot, k - 1);
    }
  }

  /** A second leave by the same socket finds no match to forfeit and sends nothing. */
  lemma RepeatedLeaveIsNoOp(m0: map<Id, MatchRecord>, socket: SocketId, n: nat, now: nat)
    requires forall id | id in m0 :: id < n
    ensures forall i | 0 <= i < |LeaveTargets(m0, socket, n)| :: LeaveTargets(m0, socket, n)[i] in m0
    ensures LeaveTargets(ForfeitAll(m0, LeaveTargets(m0, socket, n), socket, now), socket, n) == []
  {
    LeaveEffectOnMatches(m0, socket, n, now);
    var m1 := ForfeitAll(m0, LeaveTargets(m0, socket, n), socket, now);
    NoLiveMatchesAs(m1, socket, 1, n);
    NoLiveMatchesAs(m1, socket, 2, n);
  }

  /** Removing the socket's first entry drops exactly that entry and keeps the others in order. */
  lemma QueueAfterLeaveSpec(q: seq<QueueEntry>, socket: SocketId)
    ensures FindEntry(q, socket).None? ==> QueueAfterLeave(q, socket) == q
    ensures FindEntry(q, socket).Some? ==>
      var i := FindEntry(q, socket).value;
      && |QueueAfterLeave(q, socket)| == |q| - 1
      && (forall k | 0 <= k < i :: QueueAfterLeave(q, socket)[k] == q[k])
      && (forall k | i <= k < |q| - 1 :: QueueAfterLeave(q, socket)[k] == q[k + 1])
  {
  }

  lemma QueueAfterLeaveOrdered(q: seq<QueueEntry>, socket: SocketId)
    requires QueueOrdered(q)
    ensures QueueOrdered(QueueAfterLeave(q, socket))
    ensures forall k | 0 <= k < |QueueAfterLeave(q, socket)| :: QueueAfterLeave(q, socket)[k] in q
  {
    QueueAfterLeaveSpec(q, socket);
    var r := QueueAfterLeave(q, socket);
    if FindEntry(q, socket).Some? {
      var i := FindEntry(q, socket).value;
      forall a, b | 0 <= a < b < |r|
        ensures r[a].joinedAt < r[b].joinedAt && r[a].id < r[b].id
      {
        var a' := if a < i then a else a + 1;
        var b' := if b < i then b else b + 1;
        assert r[a] == q[a'] && r[b] == q[b'];
      }
      forall k | 0 <= k < |r| ensures r[k] in q {
        assert r[k] == q[if k < i then k else k + 1];
      }
    }
  }

  /** Forfeiting keeps every record's invariant. */
  lemma ForfeitAllKeepsRecordsOk(m0: map<Id, MatchRecord>, ts: seq<Id>, socket: SocketId, now: nat)
    requires forall i | 0 <= i < |ts| :: ts[i] in m0
    requires forall id | id in m0 :: RecordOk(m0[id])
    ensures forall id | id in ForfeitAll(m0, ts, socket, now) :: RecordOk(ForfeitAll(m0, ts, socket, now)[id])
  {
    ForfeitAllSpec(m0, ts, socket, now);
  }

  // ---------------------------------------------------------------------------

  class SocketHandler {
    const repos: Repositories
    const io: Outbox

    constructor(repos: Repositories, io: Outbox)
      ensures this.repos == repos && this.io == io
    {
      this.repos := repos;
      this.io := io;
    }

    /** join_queue: a new entry at the tail; ERROR only when saving fails. */
    method HandleJoinQueue(socket: SocketId, payload: JoinQueuePayload, saved: bool)
      requires repos.Valid()
      modifies repos, io
      ensures repos.Valid()
      ensures saved ==>
        && repos.queue == old(repos.queue) + [QueueEntry(old(repos.nextId), payload.nickname, socket, old(repos.clock))]
        && repos.matches == old(repos.matches)
        && repos.nextId == old(repos.nextId) + 1 && repos.clock == old(repos.clock) + 1
        && io.sent == old(io.sent)
      ensures !saved ==>
        && unchanged(repos)
        && io.sent == old(io.sent) + [Emit(socket, Error(FailedToJoinQueue, JOIN_QUEUE_ERROR))]
    {
      if saved {
        var entry := QueueEntry(repos.nextId, payload.nickname, socket, repos.clock);
        repos.queue := repos.queue + [entry];
        repos.nextId := repos.nextId + 1;
        repos.clock := repos.clock + 1;
      } else {
        io.sent := io.sent + [Emit(socket, Error(FailedToJoinQueue, JOIN_QUEUE_ERROR))];
      }
    }

    method HandleMakeMove(socket: SocketId, payload: MakeMovePayload, now: nat)
      requires repos.Valid()
      modifies repos, io
      ensures repos.Valid()
      ensures ShapesOk(old(repos.matches))
      ensures repos.matches == MakeMoveEffect(old(repos.matches), socket, payload, now).matches
      ensures io.sent == old(io.sent) + MakeMoveEffect(old(repos.matches), socket, payload, now).emits
      ensures repos.queue == old(repos.queue) && repos.nextId == old(repos.nextId) && repos.clock == old(repos.clock)
    {
      MakeMoveKeepsRecordsOk(repos.matches, socket, payload, now);
      ghost var effect := MakeMoveEffect(repos.matches, socket, payload, now);
      if payload.gameId !in repos.matches {
        io.sent := io.sent + [ErrorTo(socket, MatchNotFound)];
        return;
      }
      var record := repos.matches[payload.gameId];
      var isPlayer1 := record.player1SocketId == socket;
      var isPlayer2 := record.player2SocketId == socket;
      if !isPlayer1 && !isPlayer2 {
        io.sent := io.sent + [ErrorTo(socket, PlayerNotInMatch)];
        return;
      }
      var playerNumber: PlayerNumber := if isPlayer1 then 1 else 2;
      var currentTurn: PlayerNumber := if |record.turns| % 2 == 0 then 1 else 2;
      assert currentTurn == TurnOwner(record);
      if playerNumber != currentTurn {
        assert effect == Effect(old(repos.matches), [ErrorTo(socket, NotYourTurn)]);
        io.sent := io.sent + [ErrorTo(socket, NotYourTurn)];
        return;
      }
      var board: Board := DeserializeBoard(record.board);
      if !IsValidMove(board, payload.move) {
        assert effect == Effect(old(repos.matches), [ErrorTo(socket, InvalidMove)]);
        io.sent := io.sent + [ErrorTo(socket, InvalidMove)];
        return;
      }
      var newBoard := MakeMove(board, payload.move).value;
      MakeMoveEffectAccepted(old(repos.matches), socket, payload, now, playerNumber);
      SaveMove(payload.gameId, record, playerNumber, payload.move, newBoard, now);
      BroadcastMove(payload.gameId, record, payload.move, newBoard, GetGameResult(newBoard), currentTurn);
    }

    /** Stores the new board (and result), then the turn; the two saves of an accepted move. */
    method SaveMove(id: Id, record: MatchRecord, playerNumber: PlayerNumber, move: GameMove, newBoard: Board, now: nat)
      modifies repos
      ensures repos.matches == old(repos.matches)[id := Played(record, playerNumber, move, newBoard, now)]
      ensures repos.queue == old(repos.queue) && repos.nextId == old(repos.nextId) && repos.clock == old(repos.clock)
    {
      var saved := record.(board := SerializeBoard(newBoard));
      var result := GetGameResult(newBoard);
      if result != NoResult {
        saved := saved.(status := Finished, result := result, finishedAt := Some(now));
      }
      repos.matches := repos.matches[id := saved];
      saved := saved.(turns := saved.turns + [TurnRecord(playerNumber, move.row, move.col)]);
      repos.matches := repos.matches[id := saved];
    }

    /** The MOVE_MADE and GAME_END emits that close an accepted move. */
    method BroadcastMove(id: Id, record: MatchRecord, move: GameMove, newBoard: Board, result: GameResult, currentTurn: PlayerNumber)
      requires result == GetGameResult(newBoard)
      modifies io
      ensures io.sent == old(io.sent) + MoveNotices(id, record, move, newBoard, currentTurn)
    {
      var nextTurn: PlayerNumber := if currentTurn == 1 then 2 else 1;
      var moveMade := MoveMade(id, move, newBoard, if result == NoResult then Some(nextTurn) else None);
      io.sent := io.sent + [Emit(record.player1SocketId, moveMade)];
      io.sent := io.sent + [Emit(record.player2SocketId, moveMade)];
      if result != NoResult {
        io.sent := io.sent + [Emit(record.player1SocketId, GameEnd(id, result, newBoard))];
        io.sent := io.sent + [Emit(record.player2SocketId, GameEnd(id, result, newBoard))];
      }
    }

    method HandleLeaveGame(socket: SocketId, now: nat)
      requires repos.Valid()
      modifies repos, io
      ensures repos.Valid()
      ensures forall i | 0 <= i < |LeaveTargets(old(repos.matches), socket, old(repos.nextId))| ::
        LeaveTargets(old(repos.matches), socket, old(repos.nextId))[i] in old(repos.matches)
      ensures repos.matches == ForfeitAll(old(repos.matches), LeaveTargets(old(repos.matches), socket, old(repos.nextId)), socket, now)
      ensures io.sent == old(io.sent) + ForfeitNotices(old(repos.matches), LeaveTargets(old(repos.matches), socket, old(repos.nextId)), socket)
      ensures repos.queue == QueueAfterLeave(old(repos.queue), socket)
      ensures repos.nextId == old(repos.nextId) && repos.clock == old(repos.clock)
    {
      var matches := LeaveTargets(repos.matches, socket, repos.nextId);
      LeaveTargetsSpec(repos.matches, socket, repos.nextId);
      ForfeitAllKeepsRecordsOk(repos.matches, matches, socket, now);
      ForfeitAllSpec(repos.matches, matches, socket, now);
      ForfeitMatches(matches, socket, now);
      LeaveQueue(socket);
      QueueAfterLeaveOrdered(old(repos.queue), socket);
    }

    /** Forfeits each target in turn, each from the record read before the loop. */
    method ForfeitMatches(matches: seq<Id>, socket: SocketId, now: nat)
      requires forall j | 0 <= j < |matches| :: matches[j] in repos.matches
      modifies repos, io
      ensures repos.matches == ForfeitAll(old(repos.matches), matches, socket, now)
      ensures io.sent == old(io.sent) + ForfeitNotices(old(repos.matches), matches, socket)
      ensures repos.queue == old(repos.queue) && repos.nextId == old(repos.nextId) && repos.clock == old(repos.clock)
    {
      var m0 := repos.matches;
      var sent0 := io.sent;
      var i := 0;
      while i < |matches|
        invariant 0 <= i <= |matches|
        invariant repos.matches == ForfeitAll(m0, matches[..i], socket, now)
        invariant io.sent == sent0 + ForfeitNotices(m0, matches[..i], socket)
        invariant repos.queue == old(repos.queue) && repos.nextId == old(repos.nextId) && repos.clock == old(repos.clock)
      {
        var id := matches[i];
        ForfeitOne(id, m0[id], socket, now);
        assert matches[..i + 1][..i] == matches[..i];
        i := i + 1;
      }
      assert matches[..i] == matches;
    }

    /** Ends one match as a forfeit by `socket` and tells the opponent. */
    method ForfeitOne(id: Id, record: MatchRecord, socket: SocketId, now: nat)
      modifies repos, io
      ensures repos.matches == old(repos.matches)[id := Forfeit(record, socket, now)]
      ensures io.sent == old(io.sent) + [ForfeitNotice(id, record, socket)]
      ensures repos.queue == old(repos.queue) && repos.nextId == old(repos.nextId) && repos.clock == old(repos.clock)
    {
      var saved := record.(status := Finished);
      if saved.player1SocketId == socket {
        saved := saved.(result := Player2Win);
        io.sent := io.sent + [Emit(saved.player2SocketId, GameEnd(id, Player2Win, DeserializeBoard(saved.board)))];
      } else {
        saved := saved.(result := Player1Win);
        io.sent := io.sent + [Emit(saved.player1SocketId, GameEnd(id, Player1Win, DeserializeBoard(saved.board)))];
      }
      saved := saved.(finishedAt := Some(now));
      repos.matches := repos.matches[id := saved];
    }

    /** Removes the socket's first queue entry, if it has one. */
    method LeaveQueue(socket: SocketId)
      modifies repos
      ensures repos.queue == QueueAfterLeave(old(repos.queue), socket)
      ensures repos.matches == old(repos.matches) && repos.nextId == old(repos.nextId) && repos.clock == old(repos.clock)
    {
      var entry := FindEntry(repos.queue, socket);
      if entry.Some? {
        repos.queue := repos.queue[..entry.value] + repos.queue[entry.value + 1..];
      }
    }

    /** A disconnect is handled exactly as a leave. */
    method HandleDisconnect(socket: SocketId, now: nat)
      requires repos.Valid()
      modifies repos, io
      ensures repos.Valid()
      ensures forall i | 0 <= i < |LeaveTargets(old(repos.matches), socket, old(repos.nextId))| ::
        LeaveTargets(old(repos.matches), socket, old(repos.nextId))[i] in old(repos.matches)
      ensures repos.matches == ForfeitAll(old(repos.matches), LeaveTargets(old(repos.matches), socket, old(repos.nextId)), socket, now)
      ensures io.sent == old(io.sent) + ForfeitNotices(old(repos.matches), LeaveTargets(old(repos.matches), socket, old(repos.nextId)), socket)
      ensures repos.queue == QueueAfterLeave(old(repos.queue), socket)
      ensures repos.nextId == old(repos.nextId) && repos.clock == old(repos.clock)
    {
      HandleLeaveGame(socket, now);
    }
  }
}
