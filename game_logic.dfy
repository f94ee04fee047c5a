/**
 * The tic-tac-toe rules of the second-generation server over a 9-character string
 * board, where `'-'` is an empty cell and positions 0..8 are read row by row.
 * Reading a string out of range gives `undefined`, written None here.
 */
module GameLogic {
  import opened Wrappers
  import opened PlayersModel
  import opened MatchsModel

  /** `board[i]`: the character, or None (`undefined`) outside the string. */
  function CharAt(s: string, i: int): Option<char> {
    if 0 <= i < |s| then Some(s[i]) else None
  }

  /** The eight lines: three rows, three columns, two diagonals, in this order. */
  const WIN_PATTERNS: seq<(int, int, int)> :=
    [(0, 1, 2), (3, 4, 5), (6, 7, 8), (0, 3, 6), (1, 4, 7), (2, 5, 8), (0, 4, 8), (2, 4, 6)]

  predicate IsValidMove(board: string, position: int) {
    position >= 0 && position < 9 && CharAt(board, position) == Some('-')
  }

  /** `substring` clamps both bounds into the string. */
  function Clamp(n: int, len: nat): nat {
    if n < 0 then 0 else if n > len then len else n
  }

  function ApplyMove(board: string, position: int, symbol: string): string {
    board[..Clamp(position, |board|)] + symbol + board[Clamp(position + 1, |board|)..]
  }

  /** Pattern k holds three equal cells, the first of which is not `'-'` (it may be undefined). */
  predicate PatternMatches(board: string, k: nat)
    requires k < |WIN_PATTERNS|
  {
    var (a, b, c) := WIN_PATTERNS[k];
    CharAt(board, a) != Some('-') && CharAt(board, a) == CharAt(board, b) && CharAt(board, a) == CharAt(board, c)
  }

  /** The first matching pattern from index k on, as the loop meets it. */
  function FirstPattern(board: string, k: nat): (r: Option<nat>)
    decreases |WIN_PATTERNS| - k
    ensures r.None? <==> forall j | k <= j < |WIN_PATTERNS| :: !PatternMatches(board, j)
    ensures r.Some? ==> k <= r.value < |WIN_PATTERNS| && PatternMatches(board, r.value)
    ensures r.Some? ==> forall j | k <= j < r.value :: !PatternMatches(board, j)
  {
    if k >= |WIN_PATTERNS| then None
    else if PatternMatches(board, k) then Some(k)
    else FirstPattern(board, k + 1)
  }

  /**
   * `checkWinner`: None is `null`; otherwise the first cell of the first matching
   * pattern, which is Some(None) when that cell is `undefined`.
   */
  function CheckWinner(board: string): Option<Option<char>> {
    match FirstPattern(board, 0)
    case None => None
    case Some(k) => Some(CharAt(board, WIN_PATTERNS[k].0))
  }

  /** The winner is truthy: a character, not `null` or `undefined`. */
  predicate WinnerIsTruthy(w: Option<Option<char>>) {
    w.Some? && w.value.Some?
  }

  predicate IsBoardFull(board: string) {
    '-' !in board
  }

  /** The symbol of the player: X for player 1 (by id), O for anyone else. */
  function Symbol(game: Matchs, player: Players): string {
    if player.idPlayer == game.player1.idPlayer then "X" else "O"
  }

  /** The id of the player to move after `player`. */
  function NextTurn(game: Matchs, player: Players): int {
    if player.idPlayer == game.player1.idPlayer then game.player2.idPlayer else game.player1.idPlayer
  }

  /** For a position inside the board and a one-character symbol, exactly that cell changes. */
  lemma ApplyMoveSpec(board: string, position: int, symbol: string)
    requires 0 <= position < |board| && |symbol| == 1
    ensures |ApplyMove(board, position, symbol)| == |board|
    ensures ApplyMove(board, position, symbol)[position] == symbol[0]
    ensures forall i | 0 <= i < |board| && i != position :: ApplyMove(board, position, symbol)[i] == board[i]
  {
  }

  /** A valid move's cell is no longer free afterwards. */
  lemma NoDoubleOccupation(board: string, position: int, symbol: string)
    requires IsValidMove(board, position) && symbol in {"X", "O"}
    ensures !IsValidMove(ApplyMove(board, position, symbol), position)
  {
    ApplyMoveSpec(board, position, symbol);
  }

  /** `checkWinner` is null exactly when no pattern matches; otherwise it is the first match's cell. */
  lemma CheckWinnerSpec(board: string)
    ensures CheckWinner(board) == None <==> forall k | 0 <= k < |WIN_PATTERNS| :: !PatternMatches(board, k)
    ensures CheckWinner(board).Some? ==>
      exists k | 0 <= k < |WIN_PATTERNS| ::
        && PatternMatches(board, k)
        && (forall j | 0 <= j < k :: !PatternMatches(board, j))
        && CheckWinner(board).value == CharAt(board, WIN_PATTERNS[k].0)
  {
    if CheckWinner(board).Some? {
      var k := FirstPattern(board, 0).value;
      assert PatternMatches(board, k);
    }
  }

  /** On a board of nine characters the winner is never undefined and never `'-'`. */
  lemma NineCellWinnerIsAMark(board: string)
    requires |board| == 9
    ensures CheckWinner(board).Some? ==> WinnerIsTruthy(CheckWinner(board)) && CheckWinner(board).value.value != '-'
  {
    if CheckWinner(board).Some? {
      var k := FirstPattern(board, 0).value;
      assert 0 <= WIN_PATTERNS[k].0 < 9;
    }
  }

  /** The patterns are read through the board's cells only. */
  lemma PatternMatchesOnSameCells(b1: string, b2: string, k: nat)
    requires k < |WIN_PATTERNS|
    requires var (a, b, c) := WIN_PATTERNS[k];
      CharAt(b1, a) == CharAt(b2, a) && CharAt(b1, b) == CharAt(b2, b) && CharAt(b1, c) == CharAt(b2, c)
    ensures PatternMatches(b1, k) <==> PatternMatches(b2, k)
  {
  }

  /**
   * When the board had no line, a line made by a move is the mover's: the winner
   * `playTurn` sees is the symbol it just wrote.
   */
  lemma NewLineBelongsToMover(board: string, position: int, symbol: string)
    requires |board| == 9 && IsValidMove(board, position) && symbol in {"X", "O"}
    requires CheckWinner(board) == None
    ensures CheckWinner(ApplyMove(board, position, symbol)).Some? ==>
      CheckWinner(ApplyMove(board, position, symbol)) == Some(Some(symbol[0]))
  {
    var after := ApplyMove(board, position, symbol);
    ApplyMoveSpec(board, position, symbol);
    CheckWinnerSpec(board);
    if CheckWinner(after).Some? {
      var k := FirstPattern(after, 0).value;
      var (a, b, c) := WIN_PATTERNS[k];
      if a != position && b != position && c != position {
        PatternMatchesOnSameCells(board, after, k);
        assert false;
      }
      assert CharAt(after, position) == Some(symbol[0]);
    }
  }

  /** On a nine-cell board, the board is full exactly when no position is a valid move. */
  lemma FullBoardHasNoMove(board: string)
    requires |board| == 9
    ensures IsBoardFull(board) <==> forall p | 0 <= p < 9 :: !IsValidMove(board, p)
  {
    if !IsBoardFull(board) {
      var p :| 0 <= p < |board| && board[p] == '-';
      assert IsValidMove(board, p);
    }
  }

  /**
   * The turn passes to a player of the match, and never stays with the mover when
   * the mover plays in it against a distinct opponent.
   */
  lemma NextTurnIsInMatch(game: Matchs, player: Players)
    ensures game.IsPlayerInMatch(NextTurn(game, player))
    ensures game.IsPlayerInMatch(player.idPlayer) && game.player1.idPlayer != game.player2.idPlayer ==>
      NextTurn(game, player) != player.idPlayer
    ensures NextTurn(game, player) == (if Symbol(game, player) == "X" then game.player2.idPlayer else game.player1.idPlayer)
  {
  }

  /** Board "---------", pending, no winner, player 1 (by id) to move. */
  method StartNewMatch(player1: Players, player2: Players, now: nat) returns (game: Matchs)
    ensures fresh(game)
    ensures game.idMatch == 0 && game.player1 == player1 && game.player2 == player2
    ensures game.gameBoard == EMPTY_BOARD && game.status == Pending && game.idWinner == None
    ensures game.currentTurn == player1.idPlayer && game.createdAt == now
  {
    game := new Matchs(0, player1, player2, EMPTY_BOARD, Pending, None, player1.idPlayer, now);
  }

  /**
   * One turn: an invalid position is refused with no change; otherwise the symbol is
   * written, and either the mover is declared winner or the turn passes to the other
   * player. Recording the turn in the database does not touch the match.
   */
  method PlayTurn(game: Matchs, player: Players, position: int) returns (ok: bool)
    modifies game
    ensures !IsValidMove(old(game.gameBoard), position) ==> !ok && unchanged(game)
    ensures IsValidMove(old(game.gameBoard), position) ==>
      && ok
      && game.gameBoard == ApplyMove(old(game.gameBoard), position, Symbol(game, player))
      && (if WinnerIsTruthy(CheckWinner(game.gameBoard)) then
            game.status == Finished && game.idWinner == Some(player.idPlayer) && game.currentTurn == old(game.currentTurn)
          else
            game.currentTurn == NextTurn(game, player) && game.status == old(game.status) && game.idWinner == old(game.idWinner))
  {
    if !IsValidMove(game.gameBoard, position) {
      return false;
    }
    var isPlayer1 := player.idPlayer == game.player1.idPlayer;
    var symbol := if isPlayer1 then "X" else "O";
    game.gameBoard := ApplyMove(game.gameBoard, position, symbol);
    var winner := CheckWinner(game.gameBoard);
    if winner.Some? && winner.value.Some? {
      game.DeclareWinner(player.idPlayer);
    } else {
      game.currentTurn := if isPlayer1 then game.player2.idPlayer else game.player1.idPlayer;
    }
    return true;
  }
}
