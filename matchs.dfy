/**
 * The tic-tac-toe match object of the second-generation server: a 9-character
 * board over `'X'`, `'O'` and `'-'`, a status, an optional winner id and the id of
 * the player whose turn it is.
 */
module MatchsModel {
  import opened Wrappers
  import opened PlayersModel

  datatype MatchStatus = Pending | InProgress | Finished

  /** Nine empty cells. */
  const EMPTY_BOARD: string := "---------"

  class Matchs {
    const idMatch: int
    const player1: Players
    const player2: Players
    var gameBoard: string
    var status: MatchStatus
    var idWinner: Option<int>
    /** The id of the player to move. */
    var currentTurn: int
    const createdAt: nat

    constructor(idMatch: int, player1: Players, player2: Players, gameBoard: string := EMPTY_BOARD,
                status: MatchStatus := Pending, idWinner: Option<int> := None, currentTurn: int := 1, createdAt: nat)
      ensures this.idMatch == idMatch && this.player1 == player1 && this.player2 == player2
      ensures this.gameBoard == gameBoard && this.status == status && this.idWinner == idWinner
      ensures this.currentTurn == currentTurn && this.createdAt == createdAt
    {
      this.idMatch := idMatch;
      this.player1 := player1;
      this.player2 := player2;
      this.gameBoard := gameBoard;
      this.status := status;
      this.idWinner := idWinner;
      this.currentTurn := currentTurn;
      this.createdAt := createdAt;
    }

    predicate IsPlayerInMatch(playerId: int) {
      player1.idPlayer == playerId || player2.idPlayer == playerId
    }

    predicate IsMatchOver()
      reads this
    {
      status == Finished
    }

    /** Records the winner and finishes the match; the board and the turn stay as they are. */
    method DeclareWinner(winner: int)
      modifies this
      ensures idWinner == Some(winner) && status == Finished && IsMatchOver()
      ensures gameBoard == old(gameBoard) && currentTurn == old(currentTurn)
    {
      idWinner := Some(winner);
      status := Finished;
    }

    /** Back to an empty pending board without a winner; the turn is kept. */
    method ResetBoard()
      modifies this
      ensures gameBoard == EMPTY_BOARD && status == Pending && idWinner == None
      ensures currentTurn == old(currentTurn) && !IsMatchOver()
    {
      gameBoard := EMPTY_BOARD;
      status := Pending;
      idWinner := None;
    }
  }
}
