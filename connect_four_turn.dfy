/**
 * A connect-four turn: a player, a column and the match it is played in. Playing it
 * drops the piece and, only when the drop succeeded, recomputes the match status.
 */
module ConnectFourTurn {
  import opened Wrappers
  import opened ConnectFourMatch

  class Turn {
    const id: int
    /** The match the turn belongs to (`match` in the source, a reserved word here). */
    const game: Match
    const player: User
    const column: int
    const createdAt: nat

    constructor(id: int, game: Match, player: User, column: int, now: nat)
      ensures this.id == id && this.game == game && this.player == player
      ensures this.column == column && createdAt == now
    {
      this.id := id;
      this.game := game;
      this.player := player;
      this.column := column;
      createdAt := now;
    }

    /**
     * A refused drop leaves the whole match as it was; an accepted one places the
     * piece and sets the status and winner from the new grid.
     */
    method Play() returns (success: bool)
      requires game.Valid()
      modifies game, game.board
      ensures game.Valid()
      ensures success == Drop(old(game.Grid()), column, player.username).Some?
      ensures success ==>
        && game.Grid() == Drop(old(game.Grid()), column, player.username).value
        && (game.status, game.winner) == StatusAfter(game.Grid(), game.player1, game.player2, old(game.winner))
      ensures !success ==>
        game.Grid() == old(game.Grid()) && game.status == old(game.status) && game.winner == old(game.winner)
    {
      success := game.DropPiece(column, player);
      if success {
        game.UpdateStatus();
      }
    }
  }
}
