/** The in-memory queue helpers of the second-generation server; none of them modifies its argument. */
module QueueModel {
  import opened Wrappers
  import opened PlayersModel

  /** One waiting player with the address it connected from. */
  datatype Queue = Queue(id: int, player: Players, ip: string, port: int, dateEntry: nat)

  predicate IsPlayerInQueue(q: seq<Queue>, playerId: int) {
    exists i | 0 <= i < |q| :: q[i].player.idPlayer == playerId
  }

  /** The entries of every other player, in their order. */
  function RemoveFromQueue(q: seq<Queue>, playerId: int): seq<Queue> {
    if q == [] then []
    else (if q[0].player.idPlayer == playerId then [] else [q[0]]) + RemoveFromQueue(q[1..], playerId)
  }

  function GetFirstInQueue(q: seq<Queue>): (r: Option<Queue>)
    ensures r.None? <==> q == []
    ensures r.Some? ==> r.value == q[0]
  {
    if |q| > 0 then Some(q[0]) else None
  }

  function ClearQueue(): seq<Queue> {
    []
  }

  /** Removal keeps exactly the entries of other players. */
  lemma {:induction false} RemoveFromQueueSpec(q: seq<Queue>, playerId: int)
    ensures forall e :: e in RemoveFromQueue(q, playerId) <==> e in q && e.player.idPlayer != playerId
    ensures |RemoveFromQueue(q, playerId)| <= |q|
  {
    if q != [] {
      RemoveFromQueueSpec(q[1..], playerId);
      assert forall e :: e in q <==> e == q[0] || e in q[1..];
    }
  }

  /** Removal works entry by entry, so the relative order of what remains is kept. */
  lemma {:induction false} RemoveFromQueueAppend(a: seq<Queue>, b: seq<Queue>, playerId: int)
    ensures RemoveFromQueue(a + b, playerId) == RemoveFromQueue(a, playerId) + RemoveFromQueue(b, playerId)
  {
    if a == [] {
      assert a + b == b;
    } else {
      assert (a + b)[1..] == a[1..] + b;
      RemoveFromQueueAppend(a[1..], b, playerId);
    }
  }

  /** After removal the player is no longer in the queue. */
  lemma RemovedPlayerIsGone(q: seq<Queue>, playerId: int)
    ensures !IsPlayerInQueue(RemoveFromQueue(q, playerId), playerId)
  {
    RemoveFromQueueSpec(q, playerId);
    var r := RemoveFromQueue(q, playerId);
    forall i | 0 <= i < |r| ensures r[i].player.idPlayer != playerId {
      assert r[i] in r;
    }
  }

  /** Removing a player who is not queued returns an equal list. */
  lemma {:induction false} RemoveAbsentIsIdentity(q: seq<Queue>, playerId: int)
    requires !IsPlayerInQueue(q, playerId)
    ensures RemoveFromQueue(q, playerId) == q
  {
    if q != [] {
      assert q[0].player.idPlayer != playerId;
      assert !IsPlayerInQueue(q[1..], playerId) by {
        forall i | 0 <= i < |q[1..]| ensures q[1..][i].player.idPlayer != playerId {
          assert q[1..][i] == q[i + 1];
        }
      }
      RemoveAbsentIsIdentity(q[1..], playerId);
      assert [q[0]] + q[1..] == q;
    }
  }

  lemma RemoveFromQueueIdempotent(q: seq<Queue>, playerId: int)
    ensures RemoveFromQueue(RemoveFromQueue(q, playerId), playerId) == RemoveFromQueue(q, playerId)
  {
    RemovedPlayerIsGone(q, playerId);
    RemoveAbsentIsIdentity(RemoveFromQueue(q, playerId), playerId);
  }

  /** The first entry is queued, and the cleared queue holds nobody. */
  lemma FirstAndClearedQueue(q: seq<Queue>, playerId: int)
    ensures GetFirstInQueue(q).Some? ==> IsPlayerInQueue(q, GetFirstInQueue(q).value.player.idPlayer)
    ensures !IsPlayerInQueue(ClearQueue(), playerId) && GetFirstInQueue(ClearQueue()) == None
  {
    if q != [] {
      assert q[0].player.idPlayer == GetFirstInQueue(q).value.player.idPlayer;
    }
  }
}
