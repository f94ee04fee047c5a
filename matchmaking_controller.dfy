/**
 * The HTTP matchmaking controller: creating a match for two queued players,
 * starting it, and playing one move on its 9-character board.
 */
module MatchmakingController {
  import opened Wrappers
  import opened MatchTable
  import opened GameController
  import GameLogic

  /** Pattern k of the shared line table holds `mark` in all three cells. */
  predicate LineOf(board: seq<char>, k: nat, mark: char)
    requires k < |GameLogic.WIN_PATTERNS|
  {
    var (a, b, c) := GameLogic.WIN_PATTERNS[k];
    GameLogic.CharAt(board, a) == Some(mark) && GameLogic.CharAt(board, b) == Some(mark) && GameLogic.CharAt(board, c) == Some(mark)
  }

  /** `checkWin`: some line is all `mark`. */
  predicate CheckWin(board: seq<char>, mark: char) {
    exists k | 0 <= k < |GameLogic.WIN_PATTERNS| :: LineOf(board, k, mark)
  }

  /** The rows of `SELECT id_player FROM queue WHERE id_player IN (a, b)`, in table order. */
  function QueueRows(queue: seq<int>, a: int, b: int): seq<int> {
    if queue == [] then []
    else (if queue[0] == a || queue[0] == b then [queue[0]] else []) + QueueRows(queue[1..], a, b)
  }

  /** The requested ids that no selected row carries, in request order. */
  function MissingPlayers(a: int, b: int, rows: seq<int>): seq<int> {
    (if a in rows then [] else [a]) + (if b in rows then [] else [b])
  }

  predicate NoDuplicates(s: seq<int>) {
    forall i, j | 0 <= i < j < |s| :: s[i] != s[j]
  }

  function CreateMatchSpec(t: Tables, player1Id: Option<int>, player2Id: Option<int>): Outcome {
    if !PresentInt(player1Id) || !PresentInt(player2Id) then Outcome(Response(400, PlayerIdsRequired), t)
    else
      var a, b := player1Id.value, player2Id.value;
      var rows := QueueRows(t.queue, a, b);
      if |rows| < 2 then Outcome(Response(400, NotInQueue(MissingPlayers(a, b, rows))), t)
      else
        var row := MatchRow(a, b, "---------", Pending, None, None);
        Outcome(Response(201, MatchCreated(t.nextId)), t.(matchs := t.matchs[t.nextId := row], nextId := t.nextId + 1))
  }

  function StartMatchSpec(t: Tables, matchId: Option<nat>): Outcome {
    if matchId.None? then Outcome(Response(400, MatchIdRequired), t)
    else if matchId.value !in t.matchs then Outcome(Response(404, MatchNotFound), t)
    else if t.matchs[matchId.value].status != Pending then Outcome(Response(400, MatchNotPending), t)
    else
      var id := matchId.value;
      Outcome(Response(200, MatchStarted), t.(matchs := t.matchs[id := t.matchs[id].(status := InProgress)]))
  }

  /** The mark of `updateMatch`: X for the literal id "player1", O for any other. */
  function MarkOf(playerId: Option<string>): char {
    if playerId == Some("player1") then 'X' else 'O'
  }

  function UpdateMatchSpec(t: Tables, matchId: Option<nat>, playerId: Option<string>, position: Option<int>): Outcome {
    if !Present(matchId) || !PresentText(playerId) || position.None? then Outcome(Response(400, MoveFieldsRequired), t)
    else if matchId.value !in t.matchs then Outcome(Response(404, MatchNotFound), t)
    else
      var id, pos := matchId.value, position.value;
      var row := t.matchs[id];
      if row.status != InProgress then Outcome(Response(400, MatchNotInProgress), t)
      else if GameLogic.CharAt(row.gameBoard, pos) != Some('-') then Outcome(Response(400, CellTaken), t)
      else
        var mark := MarkOf(playerId);
        var board := row.gameBoard[pos := mark];
        if CheckWin(board, mark) then
          Outcome(Response(200, PlayerWon(board)), t.(matchs := t.matchs[id := row.(gameBoard := board, status := Finished, idWinner := playerId)]))
        else
          Outcome(Response(200, MoveDone(board)), t.(matchs := t.matchs[id := row.(gameBoard := board)]))
  }

  /**
   * `checkWin` and the string engine agree on nine-cell boards: a line of any mark
   * other than `'-'` makes `checkWinner` non-null, and a non-null winner has a full line.
   */
  lemma CheckWinAgreesWithCheckWinner(board: seq<char>, mark: char)
    requires |board| == 9
    ensures mark != '-' && CheckWin(board, mark) ==> GameLogic.CheckWinner(board).Some?
    ensures GameLogic.CheckWinner(board).Some? ==>
      GameLogic.CheckWinner(board).value.Some? && CheckWin(board, GameLogic.CheckWinner(board).value.value)
  {
    GameLogic.CheckWinnerSpec(board);
    if mark != '-' && CheckWin(board, mark) {
      var k :| 0 <= k < |GameLogic.WIN_PATTERNS| && LineOf(board, k, mark);
      assert GameLogic.PatternMatches(board, k);
    }
    if GameLogic.CheckWinner(board).Some? {
      GameLogic.NineCellWinnerIsAMark(board);
      var k := GameLogic.FirstPattern(board, 0).value;
      assert LineOf(board, k, GameLogic.CheckWinner(board).value.value);
    }
  }

  lemma {:induction false} QueueRowsSpec(queue: seq<int>, a: int, b: int)
    ensures forall x :: x in QueueRows(queue, a, b) <==> x in queue && (x == a || x == b)
  {
    if queue != [] {
      QueueRowsSpec(queue[1..], a, b);
      assert forall x :: x in queue <==> x == queue[0] || x in queue[1..];
    }
  }

  /** Without duplicate rows, each requested id contributes at most one selected row. */
  lemma {:induction false} QueueRowsCount(queue: seq<int>, a: int, b: int)
    requires NoDuplicates(queue)
    ensures |QueueRows(queue, a, b)| == (if a in queue then 1 else 0) + (if b in queue && b != a then 1 else 0)
  {
    if queue != [] {
      var rest := queue[1..];
      assert NoDuplicates(rest) by {
        forall i, j | 0 <= i < j < |rest| ensures rest[i] != rest[j] {
          assert rest[i] == queue[i + 1] && rest[j] == queue[j + 1];
        }
      }
      assert queue[0] !in rest by {
        forall i | 0 <= i < |rest| ensures rest[i] != queue[0] {
          assert rest[i] == queue[i + 1];
        }
      }
      assert forall x :: x in queue <==> x == queue[0] || x in rest;
      QueueRowsCount(rest, a, b);
    }
  }

  /**
   * createMatch refuses falsy ids, and refuses unless the selection finds two rows;
   * without duplicate queue rows that is exactly: both distinct players are queued.
   * A created match is a new pending row on the empty board, under the next id.
   */
  lemma CreateMatchDecision(t: Tables, player1Id: Option<int>, player2Id: Option<int>)
    requires IdsBelowNext(t)
    ensures var o := CreateMatchSpec(t, player1Id, player2Id);
      && (!PresentInt(player1Id) || !PresentInt(player2Id) ==> o == Outcome(Response(400, PlayerIdsRequired), t))
      && (o.res.code != 201 ==> o.res.code == 400 && o.tables == t)
      && (PresentInt(player1Id) && PresentInt(player2Id) && NoDuplicates(t.queue) && player1Id != player2Id ==>
            (o.res.code == 201 <==> player1Id.value in t.queue && player2Id.value in t.queue))
      && (o.res.code == 201 ==>
            && o.res.message == MatchCreated(t.nextId)
            && t.nextId !in t.matchs
            && o.tables.matchs == t.matchs[t.nextId := MatchRow(player1Id.value, player2Id.value, "---------", Pending, None, None)]
            && o.tables.nextId == t.nextId + 1 && IdsBelowNext(o.tables))
  {
    if PresentInt(player1Id) && PresentInt(player2Id) && NoDuplicates(t.queue) {
      QueueRowsCount(t.queue, player1Id.value, player2Id.value);
    }
  }

  /** A refusal for missing queue entries names, in request order, the ids the selection did not find. */
  lemma NotInQueueNamesTheMissing(t: Tables, player1Id: Option<int>, player2Id: Option<int>)
    requires PresentInt(player1Id) && PresentInt(player2Id)
    ensures var o := CreateMatchSpec(t, player1Id, player2Id);
      o.res.message.NotInQueue? ==>
        forall x :: x in o.res.message.missing <==> (x == player1Id.value || x == player2Id.value) && x !in t.queue
  {
    QueueRowsSpec(t.queue, player1Id.value, player2Id.value);
  }

  /** startMatch: 404 on a missing match, 400 unless pending; otherwise only the status changes. */
  lemma StartMatchDecision(t: Tables, matchId: Option<nat>)
    ensures var o := StartMatchSpec(t, matchId);
      && (matchId.Some? && matchId.value !in t.matchs ==> o.res.code == 404)
      && (o.res.code == 200 <==> matchId.Some? && matchId.value in t.matchs && t.matchs[matchId.value].status == Pending)
      && (o.res.code != 200 ==> o.tables == t)
      && (o.res.code == 200 ==>
            OnlyRowChanged(t, o.tables, matchId.value)
            && o.tables.matchs[matchId.value] == t.matchs[matchId.value].(status := InProgress))
  {
  }

  /**
   * updateMatch refuses, leaving every row, on a missing field, a missing match, a
   * match not in progress, or a cell that is not `'-'` (out of range included).
   */
  lemma UpdateMatchRefusals(t: Tables, matchId: Option<nat>, playerId: Option<string>, position: Option<int>)
    ensures var o := UpdateMatchSpec(t, matchId, playerId, position);
      && (o.res.code != 200 ==> o.tables == t)
      && (o.res.code == 200 <==>
            && Present(matchId) && PresentText(playerId) && position.Some?
            && matchId.value in t.matchs
            && t.matchs[matchId.value].status == InProgress
            && 0 <= position.value < |t.matchs[matchId.value].gameBoard|
            && t.matchs[matchId.value].gameBoard[position.value] == '-')
  {
  }

  /**
   * An accepted move changes exactly its cell, to X for "player1" and O otherwise;
   * a winning move finishes the match for that player, any other move changes the
   * board only and the match stays in progress.
   */
  lemma UpdateMatchPlacement(t: Tables, matchId: Option<nat>, playerId: Option<string>, position: Option<int>)
    requires UpdateMatchSpec(t, matchId, playerId, position).res.code == 200
    ensures var o := UpdateMatchSpec(t, matchId, playerId, position);
      var id, pos := matchId.value, position.value;
      var before, after := t.matchs[id], o.tables.matchs[id];
      && OnlyRowChanged(t, o.tables, id)
      && |after.gameBoard| == |before.gameBoard|
      && after.gameBoard[pos] == (if playerId == Some("player1") then 'X' else 'O')
      && (forall i | 0 <= i < |before.gameBoard| && i != pos :: after.gameBoard[i] == before.gameBoard[i])
      && (CheckWin(after.gameBoard, after.gameBoard[pos]) ==>
            after == before.(gameBoard := after.gameBoard, status := Finished, idWinner := playerId))
      && (!CheckWin(after.gameBoard, after.gameBoard[pos]) ==>
            after == before.(gameBoard := after.gameBoard) && after.status == InProgress)
  {
  }

  method CreateMatch(db: Database, player1Id: Option<int>, player2Id: Option<int>) returns (res: Response)
    modifies db
    ensures Outcome(res, db.State()) == CreateMatchSpec(old(db.State()), player1Id, player2Id)
  {
    if !PresentInt(player1Id) || !PresentInt(player2Id) {
      return Response(400, PlayerIdsRequired);
    }
    var queuePlayers := QueueRows(db.queue, player1Id.value, player2Id.value);
    if |queuePlayers| < 2 {
      return Response(400, NotInQueue(MissingPlayers(player1Id.value, player2Id.value, queuePlayers)));
    }
    var insertId := db.nextId;
    db.matchs := db.matchs[insertId := MatchRow(player1Id.value, player2Id.value, "---------", Pending, None, None)];
    db.nextId := db.nextId + 1;
    return Response(201, MatchCreated(insertId));
  }

  method StartMatch(db: Database, matchId: Option<nat>) returns (res: Response)
    modifies db
    ensures Outcome(res, db.State()) == StartMatchSpec(old(db.State()), matchId)
  {
    if matchId.None? {
      return Response(400, MatchIdRequired);
    }
    var id := matchId.value;
    if id !in db.matchs {
      return Response(404, MatchNotFound);
    }
    if db.matchs[id].status != Pending {
      return Response(400, MatchNotPending);
    }
    db.matchs := db.matchs[id := db.matchs[id].(status := InProgress)];
    return Response(200, MatchStarted);
  }

  /** The board is split into a character array, written in place and joined again. */
  method UpdateMatch(db: Database, matchId: Option<nat>, playerId: Option<string>, position: Option<int>) returns (res: Response)
    modifies db
    ensures Outcome(res, db.State()) == UpdateMatchSpec(old(db.State()), matchId, playerId, position)
  {
    var playerMark := if playerId == Some("player1") then 'X' else 'O';
    if !Present(matchId) || !PresentText(playerId) || position.None? {
      return Response(400, MoveFieldsRequired);
    }
    var id, pos := matchId.value, position.value;
    if id !in db.matchs {
      return Response(404, MatchNotFound);
    }
    var row := db.matchs[id];
    if row.status != InProgress {
      return Response(400, MatchNotInProgress);
    }
    var gameBoard := new char[|row.gameBoard|](i requires 0 <= i < |row.gameBoard| => row.gameBoard[i]);
    assert gameBoard[..] == row.gameBoard;
    if !(0 <= pos < gameBoard.Length) || gameBoard[pos] != '-' {
      return Response(400, CellTaken);
    }
    gameBoard[pos] := playerMark;
    var joined := gameBoard[..];
    assert joined == row.gameBoard[pos := playerMark];
    if CheckWin(joined, playerMark) {
      db.matchs := db.matchs[id := row.(gameBoard := joined, status := Finished, idWinner := playerId)];
      return Response(200, PlayerWon(joined));
    } else {
      db.matchs := db.matchs[id := row.(gameBoard := joined)];
      return Response(200, MoveDone(joined));
    }
  }
}
