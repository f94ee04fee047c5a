/**
 * The match table under any sequence of controller requests: the status of a row
 * only moves along pending -> in progress <-> paused, in progress -> finished, and
 * a finished row is never touched again.
 */
module MatchLifecycle {
  import opened Wrappers
  import opened MatchTable
  import opened GameController
  import opened MatchmakingController

  datatype Request =
    | StartGame(matchId: Option<nat>)
    | PauseGame(matchId: Option<nat>)
    | ResumeGame(matchId: Option<nat>)
    | EndGame(matchId: Option<nat>, winnerId: Option<string>)
    | CreateMatch(player1Id: Option<int>, player2Id: Option<int>)
    | StartMatch(matchId: Option<nat>)
    | UpdateMatch(matchId: Option<nat>, playerId: Option<string>, position: Option<int>)

  function Handle(t: Tables, r: Request): Outcome {
    match r
    case StartGame(m) => StartGameSpec(t, m)
    case PauseGame(m) => PauseGameSpec(t, m)
    case ResumeGame(m) => ResumeGameSpec(t, m)
    case EndGame(m, w) => EndGameSpec(t, m, w)
    case CreateMatch(a, b) => CreateMatchSpec(t, a, b)
    case StartMatch(m) => StartMatchSpec(t, m)
    case UpdateMatch(m, p, pos) => UpdateMatchSpec(t, m, p, pos)
  }

  /** The tables after the requests, handled one at a time in order. */
  function Run(t: Tables, rs: seq<Request>): Tables
    decreases |rs|
  {
    if rs == [] then t else Run(Handle(t, rs[0]).tables, rs[1..])
  }

  /** The status moves the handlers make. */
  predicate Step(before: Status, after: Status) {
    || before == after
    || (before == Pending && after == InProgress)
    || (before == InProgress && after == Paused)
    || (before == Paused && after == InProgress)
    || (before == InProgress && after == Finished)
  }

  /** One request keeps every row, moves its status by a Step, and adds only rows above the old next id. */
  lemma HandleSteps(t: Tables, r: Request)
    requires IdsBelowNext(t)
    ensures var t2 := Handle(t, r).tables;
      && IdsBelowNext(t2) && t2.queue == t.queue && t2.nextId >= t.nextId
      && (forall id | id in t.matchs :: id in t2.matchs && Step(t.matchs[id].status, t2.matchs[id].status))
      && (forall id | id in t.matchs && t.matchs[id].status == Finished :: t2.matchs[id] == t.matchs[id])
  {
    match r
    case CreateMatch(a, b) => CreateMatchDecision(t, a, b);
    case _ =>
  }

  /** No sequence of requests changes, or removes, a finished match. */
  lemma {:induction false} FinishedIsFinal(t: Tables, rs: seq<Request>)
    requires IdsBelowNext(t)
    ensures IdsBelowNext(Run(t, rs))
    ensures forall id | id in t.matchs && t.matchs[id].status == Finished ::
      id in Run(t, rs).matchs && Run(t, rs).matchs[id] == t.matchs[id]
    decreases |rs|
  {
    if rs != [] {
      HandleSteps(t, rs[0]);
      FinishedIsFinal(Handle(t, rs[0]).tables, rs[1..]);
    }
  }

  /** A pending match can only get to finished by being started first: one request never jumps there. */
  lemma NoShortcutToFinished(t: Tables, r: Request, id: nat)
    requires IdsBelowNext(t)
    requires id in t.matchs && t.matchs[id].status != InProgress
    ensures Handle(t, r).tables.matchs[id].status != Finished || t.matchs[id].status == Finished
  {
    HandleSteps(t, r);
  }
}
