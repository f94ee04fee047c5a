/**
 * The status handlers of the HTTP game controller: each selects the match only in
 * one status and updates that one row.
 */
module GameController {
  import opened Wrappers
  import opened MatchTable

  /** The response and the new tables of one request. */
  datatype Outcome = Outcome(res: Response, tables: Tables)

  /** The row `SELECT ... WHERE id_match = ? AND status = ?` finds, if any. */
  predicate Selects(t: Tables, matchId: Option<nat>, status: Status) {
    matchId.Some? && matchId.value in t.matchs && t.matchs[matchId.value].status == status
  }

  function StartGameSpec(t: Tables, matchId: Option<nat>): Outcome {
    if !Present(matchId) then Outcome(Response(400, MatchIdRequired), t)
    else if !Selects(t, matchId, Pending) then Outcome(Response(400, GameMissingOrStarted), t)
    else
      var id := matchId.value;
      Outcome(Response(200, GameStarted), t.(matchs := t.matchs[id := t.matchs[id].(status := InProgress, currentTurn := Some(1))]))
  }

  function PauseGameSpec(t: Tables, matchId: Option<nat>): Outcome {
    if !Selects(t, matchId, InProgress) then Outcome(Response(400, GameNotInProgress), t)
    else
      var id := matchId.value;
      Outcome(Response(200, GamePaused), t.(matchs := t.matchs[id := t.matchs[id].(status := Paused)]))
  }

  function ResumeGameSpec(t: Tables, matchId: Option<nat>): Outcome {
    if !Selects(t, matchId, Paused) then Outcome(Response(400, GameNotPaused), t)
    else
      var id := matchId.value;
      Outcome(Response(200, GameResumed), t.(matchs := t.matchs[id := t.matchs[id].(status := InProgress)]))
  }

  function EndGameSpec(t: Tables, matchId: Option<nat>, winnerId: Option<string>): Outcome {
    if !Present(matchId) || !PresentText(winnerId) then Outcome(Response(400, MatchAndWinnerRequired), t)
    else if !Selects(t, matchId, InProgress) then Outcome(Response(400, GameMissingOrNotInProgress), t)
    else
      var id := matchId.value;
      Outcome(Response(200, GameEnded), t.(matchs := t.matchs[id := t.matchs[id].(status := Finished, idWinner := winnerId)]))
  }

  /** startGame: without a truthy id, or unless the match is pending, nothing changes; otherwise it starts with turn 1. */
  lemma StartGameTransition(t: Tables, matchId: Option<nat>)
    ensures var o := StartGameSpec(t, matchId);
      && (o.res.code == 200 <==> Present(matchId) && Selects(t, matchId, Pending))
      && (o.res.code != 200 ==> o.res.code == 400 && o.tables == t)
      && (!Present(matchId) ==> o.res.message == MatchIdRequired)
      && (o.res.code == 200 ==>
            var id := matchId.value;
            && OnlyRowChanged(t, o.tables, id)
            && o.tables.matchs[id] == t.matchs[id].(status := InProgress, currentTurn := Some(1)))
  {
  }

  /** pauseGame moves an in-progress match, and only that, to paused. */
  lemma PauseGameTransition(t: Tables, matchId: Option<nat>)
    ensures var o := PauseGameSpec(t, matchId);
      && (o.res.code == 200 <==> Selects(t, matchId, InProgress))
      && (o.res.code != 200 ==> o.res.code == 400 && o.tables == t)
      && (o.res.code == 200 ==>
            var id := matchId.value;
            && OnlyRowChanged(t, o.tables, id)
            && o.tables.matchs[id] == t.matchs[id].(status := Paused))
  {
  }

  /** resumeGame moves a paused match, and only that, back to in progress. */
  lemma ResumeGameTransition(t: Tables, matchId: Option<nat>)
    ensures var o := ResumeGameSpec(t, matchId);
      && (o.res.code == 200 <==> Selects(t, matchId, Paused))
      && (o.res.code != 200 ==> o.res.code == 400 && o.tables == t)
      && (o.res.code == 200 ==>
            var id := matchId.value;
            && OnlyRowChanged(t, o.tables, id)
            && o.tables.matchs[id] == t.matchs[id].(status := InProgress))
  {
  }

  /** endGame needs both ids and finishes an in-progress match with the given winner. */
  lemma EndGameTransition(t: Tables, matchId: Option<nat>, winnerId: Option<string>)
    ensures var o := EndGameSpec(t, matchId, winnerId);
      && (o.res.code == 200 <==> Present(matchId) && PresentText(winnerId) && Selects(t, matchId, InProgress))
      && (o.res.code != 200 ==> o.res.code == 400 && o.tables == t)
      && (o.res.code == 200 ==>
            var id := matchId.value;
            && OnlyRowChanged(t, o.tables, id)
            && o.tables.matchs[id] == t.matchs[id].(status := Finished, idWinner := winnerId))
  {
  }

  method StartGame(db: Database, matchId: Option<nat>) returns (res: Response)
    modifies db
    ensures Outcome(res, db.State()) == StartGameSpec(old(db.State()), matchId)
  {
    if !Present(matchId) {
      return Response(400, MatchIdRequired);
    }
    var id := matchId.value;
    if id !in db.matchs || db.matchs[id].status != Pending {
      return Response(400, GameMissingOrStarted);
    }
    db.matchs := db.matchs[id := db.matchs[id].(status := InProgress, currentTurn := Some(1))];
    return Response(200, GameStarted);
  }

  method PauseGame(db: Database, matchId: Option<nat>) returns (res: Response)
    modifies db
    ensures Outcome(res, db.State()) == PauseGameSpec(old(db.State()), matchId)
  {
    if matchId.None? || matchId.value !in db.matchs || db.matchs[matchId.value].status != InProgress {
      return Response(400, GameNotInProgress);
    }
    var id := matchId.value;
    db.matchs := db.matchs[id := db.matchs[id].(status := Paused)];
    return Response(200, GamePaused);
  }

  method ResumeGame(db: Database, matchId: Option<nat>) returns (res: Response)
    modifies db
    ensures Outcome(res, db.State()) == ResumeGameSpec(old(db.State()), matchId)
  {
    if matchId.None? || matchId.value !in db.matchs || db.matchs[matchId.value].status != Paused {
      return Response(400, GameNotPaused);
    }
    var id := matchId.value;
    db.matchs := db.matchs[id := db.matchs[id].(status := InProgress)];
    return Response(200, GameResumed);
  }

  method EndGame(db: Database, matchId: Option<nat>, winnerId: Option<string>) returns (res: Response)
    modifies db
    ensures Outcome(res, db.State()) == EndGameSpec(old(db.State()), matchId, winnerId)
  {
    if !Present(matchId) || !PresentText(winnerId) {
      return Response(400, MatchAndWinnerRequired);
    }
    var id := matchId.value;
    if id !in db.matchs || db.matchs[id].status != InProgress {
      return Response(400, GameMissingOrNotInProgress);
    }
    db.matchs := db.matchs[id := db.matchs[id].(status := Finished, idWinner := winnerId)];
    return Response(200, GameEnded);
  }
}
