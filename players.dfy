/**
 * The player object of the second-generation server: an id, a pseudonym that can
 * be renamed, and a creation date (a number here).
 */
module PlayersModel {
  /** A `players` row as the database returns it. */
  datatype PlayerRow = PlayerRow(idPlayer: int, pseudo: string, createdAt: nat)

  class Players {
    const idPlayer: int
    var pseudo: string
    const createdAt: nat

    constructor(idPlayer: int, pseudo: string, createdAt: nat)
      ensures this.idPlayer == idPlayer && this.pseudo == pseudo && this.createdAt == createdAt
    {
      this.idPlayer := idPlayer;
      this.pseudo := pseudo;
      this.createdAt := createdAt;
    }

    /** Renames the player; the empty pseudonym is refused and changes nothing. */
    method UpdatePseudo(newPseudo: string)
      modifies this
      ensures pseudo == if |newPseudo| > 0 then newPseudo else old(pseudo)
    {
      if |newPseudo| > 0 {
        pseudo := newPseudo;
      }
    }

    /** Two players are the same player exactly when their ids are equal. */
    predicate IsEqual(other: Players) {
      idPlayer == other.idPlayer
    }

    static method FromDB(row: PlayerRow) returns (p: Players)
      ensures fresh(p)
      ensures p.idPlayer == row.idPlayer && p.pseudo == row.pseudo && p.createdAt == row.createdAt
    {
      p := new Players(row.idPlayer, row.pseudo, row.createdAt);
    }
  }

  /** `isEqual` is an equivalence: the pseudonym and the date play no part. */
  lemma IsEqualIsAnEquivalence(a: Players, b: Players, c: Players)
    ensures a.IsEqual(a)
    ensures a.IsEqual(b) <==> b.IsEqual(a)
    ensures a.IsEqual(b) && b.IsEqual(c) ==> a.IsEqual(c)
    ensures a.IsEqual(b) <==> a.idPlayer == b.idPlayer
  {
  }
}
