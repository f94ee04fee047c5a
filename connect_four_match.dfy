/**
 * The connect-four match object: a 6x7 grid of cells holding `null` or a player's
 * username, filled from the bottom (row 5) up, won by four equal cells in a row,
 * column or diagonal. A cell counts as occupied for dropping and for winning when it
 * is truthy, so a cell holding the empty username counts as free there, while the
 * full-board test only asks for cells that are not `null`.
 */
module ConnectFourMatch {
  import opened Wrappers

  const ROWS: nat := 6
  const COLS: nat := 7

  datatype User = User(id: int, username: string, email: string, createdAt: nat)

  /** `null` or a username. */
  type Cell = Option<string>

  type Grid = seq<seq<Cell>>

  datatype MatchStatus = Waiting | InProgress | Finished

  predicate IsGrid(g: Grid) {
    |g| == ROWS && forall r | 0 <= r < ROWS :: |g[r]| == COLS
  }

  predicate InBoard(r: int, c: int) {
    0 <= r < ROWS && 0 <= c < COLS
  }

  /** JavaScript truthiness of a cell: a non-empty username. */
  predicate Truthy(c: Cell) {
    c.Some? && c.value != ""
  }

  // ---------------------------------------------------------------------------
  // dropPiece

  /** The first cell that is not truthy when scanning column `col` from `row` upwards to row 0. */
  function LandingRow(g: Grid, col: nat, row: int): (r: Option<nat>)
    requires IsGrid(g) && col < COLS && row < ROWS
    decreases row + 1
    ensures r.Some? ==> r.value <= row && !Truthy(g[r.value][col])
    ensures r.Some? ==> forall k | r.value < k <= row :: Truthy(g[k][col])
    ensures r.None? <==> forall k | 0 <= k <= row :: Truthy(g[k][col])
  {
    if row < 0 then None
    else if !Truthy(g[row][col]) then Some(row)
    else LandingRow(g, col, row - 1)
  }

  /** The grid after `dropPiece`, or None when it returns false (the grid is then unchanged). */
  function Drop(g: Grid, column: int, name: string): Option<Grid>
    requires IsGrid(g)
  {
    if column < 0 || column >= COLS then None
    else
      match LandingRow(g, column, ROWS - 1)
      case None => None
      case Some(r) => Some(g[r := g[r][column := Some(name)]])
  }

  /** In every column the occupied cells form one block that ends at row 5. */
  predicate Gravity(g: Grid)
    requires IsGrid(g)
  {
    forall r1, r2, c | 0 <= r1 < r2 < ROWS && 0 <= c < COLS :: Truthy(g[r1][c]) ==> Truthy(g[r2][c])
  }

  /**
   * A column outside [0, 7) or a full column refuses the piece; otherwise the piece
   * lands in the lowest free cell of the column and no other cell changes.
   */
  lemma DropSpec(g: Grid, column: int, name: string)
    requires IsGrid(g)
    ensures (column < 0 || column >= COLS) ==> Drop(g, column, name).None?
    ensures 0 <= column < COLS && (forall r | 0 <= r < ROWS :: Truthy(g[r][column])) ==> Drop(g, column, name).None?
    ensures 0 <= column < COLS && (exists r | 0 <= r < ROWS :: !Truthy(g[r][column])) ==> Drop(g, column, name).Some?
    ensures Drop(g, column, name).Some? ==>
      var g2 := Drop(g, column, name).value;
      && 0 <= column < COLS
      && IsGrid(g2)
      && exists r | 0 <= r < ROWS ::
        && !Truthy(g[r][column])
        && (forall k | r < k < ROWS :: Truthy(g[k][column]))
        && g2[r][column] == Some(name)
        && (forall rr, cc | InBoard(rr, cc) && (rr, cc) != (r, column) :: g2[rr][cc] == g[rr][cc])
  {
    if Drop(g, column, name).Some? {
      var r := LandingRow(g, column, ROWS - 1).value;
      assert !Truthy(g[r][column]);
    }
  }

  /** Dropping keeps every column stacked from the bottom. */
  lemma DropKeepsGravity(g: Grid, column: int, name: string)
    requires IsGrid(g) && Gravity(g)
    ensures Drop(g, column, name).Some? ==> IsGrid(Drop(g, column, name).value) && Gravity(Drop(g, column, name).value)
  {
    if Drop(g, column, name).Some? {
      var r := LandingRow(g, column, ROWS - 1).value;
      var g2 := Drop(g, column, name).value;
      forall r1, r2, c | 0 <= r1 < r2 < ROWS && 0 <= c < COLS && Truthy(g2[r1][c]) ensures Truthy(g2[r2][c]) {
        if c == column {
          if r1 != r {
            assert Truthy(g[r1][c]);
            assert r < r1;
          }
        }
      }
    }
  }

  // ---------------------------------------------------------------------------
  // checkWinner

  /** `directions`: right, down, down-right, down-left. */
  const DIRECTIONS: seq<(int, int)> := [(0, 1), (1, 0), (1, 1), (1, -1)]

  /** The i-th step from (r, c) along (dx, dy) is on the board and equal to the start cell. */
  predicate Along(g: Grid, r: int, c: int, dx: int, dy: int, i: int)
    requires IsGrid(g) && InBoard(r, c)
  {
    InBoard(r + i * dx, c + i * dy) && g[r + i * dx][c + i * dy] == g[r][c]
  }

  /** Four in a row from (r, c) in direction d, starting on a truthy cell. */
  predicate FourFrom(g: Grid, r: int, c: int, d: nat)
    requires IsGrid(g) && InBoard(r, c) && d < |DIRECTIONS|
  {
    var (dx, dy) := DIRECTIONS[d];
    Truthy(g[r][c]) && Along(g, r, c, dx, dy, 1) && Along(g, r, c, dx, dy, 2) && Along(g, r, c, dx, dy, 3)
  }

  datatype Pos = Pos(r: nat, c: nat, d: nat)

  /** (rr, cc, dd) comes at or after (r, c, d) in the scan: rows, then columns, then directions. */
  predicate NotBefore(rr: int, cc: int, dd: int, r: int, c: int, d: int) {
    rr > r || (rr == r && (cc > c || (cc == c && dd >= d)))
  }

  /** The first four-in-a-row the nested loops meet from (r, c, d) on. */
  function FirstFour(g: Grid, r: nat, c: nat, d: nat): (p: Option<Pos>)
    requires IsGrid(g) && r <= ROWS && c <= COLS && d <= |DIRECTIONS|
    decreases ROWS - r, COLS - c, |DIRECTIONS| - d
    ensures p.Some? ==> InBoard(p.value.r, p.value.c) && p.value.d < |DIRECTIONS| && FourFrom(g, p.value.r, p.value.c, p.value.d)
    ensures p.Some? ==> NotBefore(p.value.r, p.value.c, p.value.d, r, c, d)
    ensures p.Some? ==> forall rr, cc, dd | InBoard(rr, cc) && 0 <= dd < |DIRECTIONS| && NotBefore(rr, cc, dd, r, c, d)
      && !NotBefore(rr, cc, dd, p.value.r, p.value.c, p.value.d) :: !FourFrom(g, rr, cc, dd)
  {
    if r >= ROWS then None
    else if c >= COLS then FirstFour(g, r + 1, 0, 0)
    else if d >= |DIRECTIONS| then FirstFour(g, r, c + 1, 0)
    else if FourFrom(g, r, c, d) then Some(Pos(r, c, d))
    else FirstFour(g, r, c, d + 1)
  }

  /** Nothing is found from (r, c, d) on exactly when no four starts at or after it. */
  lemma {:induction false} FirstFourNone(g: Grid, r: nat, c: nat, d: nat)
    requires IsGrid(g) && r <= ROWS && c <= COLS && d <= |DIRECTIONS|
    decreases ROWS - r, COLS - c, |DIRECTIONS| - d
    ensures FirstFour(g, r, c, d).None? <==>
      forall rr, cc, dd | InBoard(rr, cc) && 0 <= dd < |DIRECTIONS| && NotBefore(rr, cc, dd, r, c, d) :: !FourFrom(g, rr, cc, dd)
  {
    if r >= ROWS {
    } else if c >= COLS {
      FirstFourNone(g, r + 1, 0, 0);
    } else if d >= |DIRECTIONS| {
      FirstFourNone(g, r, c + 1, 0);
    } else if !FourFrom(g, r, c, d) {
      FirstFourNone(g, r, c, d + 1);
    }
  }

  /** `checkWinner`: player1 when the first four's username is player1's, player2 otherwise. */
  function WinnerFor(g: Grid, player1: User, player2: User): Option<User>
    requires IsGrid(g)
  {
    match FirstFour(g, 0, 0, 0)
    case None => None
    case Some(p) => if g[p.r][p.c].value == player1.username then Some(player1) else Some(player2)
  }

  /** Every cell is not `null`. */
  predicate IsFull(g: Grid)
    requires IsGrid(g)
  {
    forall r, c | 0 <= r < ROWS && 0 <= c < COLS :: g[r][c] != None
  }

  /** The status and winner `updateStatus` leaves, from the winner it had before. */
  function StatusAfter(g: Grid, player1: User, player2: User, winner: Option<User>): (MatchStatus, Option<User>)
    requires IsGrid(g)
  {
    var w := WinnerFor(g, player1, player2);
    if w.Some? then (Finished, w)
    else if IsFull(g) then (Finished, winner)
    else (InProgress, winner)
  }

  /**
   * There is a winner exactly when some truthy cell starts four equal cells in one of
   * the four directions; the winner is player1 exactly when that cell is player1's.
   */
  lemma CheckWinnerSpec(g: Grid, player1: User, player2: User)
    requires IsGrid(g)
    ensures WinnerFor(g, player1, player2).None? <==>
      forall r, c, d | InBoard(r, c) && 0 <= d < |DIRECTIONS| :: !FourFrom(g, r, c, d)
    ensures WinnerFor(g, player1, player2).Some? ==>
      exists r, c, d | InBoard(r, c) && 0 <= d < |DIRECTIONS| ::
        && FourFrom(g, r, c, d)
        && (forall rr, cc, dd | InBoard(rr, cc) && 0 <= dd < |DIRECTIONS| && !NotBefore(rr, cc, dd, r, c, d) :: !FourFrom(g, rr, cc, dd))
        && (WinnerFor(g, player1, player2) == Some(player1) <==> g[r][c].value == player1.username || player1 == player2)
  {
    FirstFourNone(g, 0, 0, 0);
    if WinnerFor(g, player1, player2).Some? {
      var p := FirstFour(g, 0, 0, 0).value;
      assert FourFrom(g, p.r, p.c, p.d);
    }
  }

  /** updateStatus finishes on a winner or a full board and is in progress otherwise. */
  lemma StatusAfterSpec(g: Grid, player1: User, player2: User, winner: Option<User>)
    requires IsGrid(g)
    ensures var (s, w) := StatusAfter(g, player1, player2, winner);
      && (s == Finished <==> WinnerFor(g, player1, player2).Some? || IsFull(g))
      && (s == InProgress <==> WinnerFor(g, player1, player2).None? && !IsFull(g))
      && (WinnerFor(g, player1, player2).Some? ==> w == WinnerFor(g, player1, player2) && w.value in {player1, player2})
      && (WinnerFor(g, player1, player2).None? ==> w == winner)
  {
  }

  /** A cell that is not truthy starts no four, in any direction. */
  lemma FalsyCellIsSkipped(g: Grid, r: nat, c: nat)
    requires IsGrid(g) && InBoard(r, c) && !Truthy(g[r][c])
    ensures FirstFour(g, r, c, 0) == FirstFour(g, r, c + 1, 0)
  {
    assert FirstFour(g, r, c, 0) == FirstFour(g, r, c, 1);
    assert FirstFour(g, r, c, 1) == FirstFour(g, r, c, 2);
    assert FirstFour(g, r, c, 2) == FirstFour(g, r, c, 3);
    assert FirstFour(g, r, c, 3) == FirstFour(g, r, c, 4);
  }

  lemma GridsEqual(g1: Grid, g2: Grid)
    requires IsGrid(g1) && IsGrid(g2)
    requires forall r, c | InBoard(r, c) :: g1[r][c] == g2[r][c]
    ensures g1 == g2
  {
    forall r | 0 <= r < ROWS ensures g1[r] == g2[r] {
      assert forall c | 0 <= c < COLS :: g1[r][c] == g2[r][c];
    }
  }

  class Match {
    const id: int
    const player1: User
    const player2: User
    /** `board[row][column]`, row 0 at the top. */
    const board: array2<Cell>
    var status: MatchStatus
    var winner: Option<User>
    const createdAt: nat

    predicate Valid() {
      board.Length0 == ROWS && board.Length1 == COLS
    }

    /** The cells as a grid of values. */
    function Grid(): (g: Grid)
      requires Valid()
      reads board
      ensures IsGrid(g)
      ensures forall r, c | InBoard(r, c) :: g[r][c] == board[r, c]
    {
      seq(ROWS, r requires 0 <= r < ROWS reads board => seq(COLS, c requires 0 <= c < COLS reads board => board[r, c]))
    }

    /** A 6x7 board of `null`, waiting, without a winner. */
    constructor(id: int, player1: User, player2: User, now: nat)
      ensures Valid() && fresh(board)
      ensures this.id == id && this.player1 == player1 && this.player2 == player2 && createdAt == now
      ensures status == Waiting && winner == None
      ensures forall r, c | InBoard(r, c) :: Grid()[r][c] == None
    {
      this.id := id;
      this.player1 := player1;
      this.player2 := player2;
      status := Waiting;
      winner := None;
      createdAt := now;
      board := new Cell[ROWS, COLS]((r, c) => None);
    }

    /** Drops a piece into `column`, scanning from the bottom row up for a free cell. */
    method DropPiece(column: int, player: User) returns (ok: bool)
      requires Valid()
      modifies board
      ensures ok == Drop(old(Grid()), column, player.username).Some?
      ensures ok ==> Grid() == Drop(old(Grid()), column, player.username).value
      ensures !ok ==> Grid() == old(Grid())
    {
      if column < 0 || column >= COLS {
        return false;
      }
      var row: int := ROWS - 1;
      while row >= 0
        invariant -1 <= row < ROWS
        invariant Grid() == old(Grid())
        invariant LandingRow(Grid(), column, ROWS - 1) == LandingRow(Grid(), column, row)
      {
        if !Truthy(board[row, column]) {
          ghost var g := Grid();
          board[row, column] := Some(player.username);
          GridsEqual(Grid(), g[row := g[row][column := Some(player.username)]]);
          return true;
        }
        row := row - 1;
      }
      return false;
    }

    /** The nested scan of rows, columns and directions, stopping at the first four. */
    method CheckWinner() returns (w: Option<User>)
      requires Valid()
      ensures w == WinnerFor(Grid(), player1, player2)
    {
      ghost var g := Grid();
      ghost var first := FirstFour(g, 0, 0, 0);
      var row := 0;
      while row < ROWS
        invariant 0 <= row <= ROWS
        invariant first == FirstFour(g, row, 0, 0)
      {
        var col := 0;
        while col < COLS
          invariant 0 <= col <= COLS
          invariant first == FirstFour(g, row, col, 0)
        {
          var player := board[row, col];
          if !Truthy(player) {
            FalsyCellIsSkipped(g, row, col);
            col := col + 1;
            continue;
          }
          var d := FirstDirection(row, col);
          if d.Some? {
            return if player.value == player1.username then Some(player1) else Some(player2);
          }
          col := col + 1;
        }
        row := row + 1;
      }
      return None;
    }

    /** The first of the four directions in which four equal truthy cells start at (row, col). */
    method FirstDirection(row: int, col: int) returns (found: Option<nat>)
      requires Valid() && InBoard(row, col) && Truthy(board[row, col])
      ensures found.Some? ==> found.value < |DIRECTIONS| && FirstFour(Grid(), row, col, 0) == Some(Pos(row, col, found.value))
      ensures found.None? ==> FirstFour(Grid(), row, col, 0) == FirstFour(Grid(), row, col + 1, 0)
    {
      ghost var g := Grid();
      ghost var first := FirstFour(g, row, col, 0);
      var d := 0;
      while d < |DIRECTIONS|
        invariant 0 <= d <= |DIRECTIONS|
        invariant first == FirstFour(g, row, col, d)
      {
        var (dx, dy) := DIRECTIONS[d];
        var count := CountFrom(row, col, dx, dy);
        if count == 4 {
          assert FourFrom(g, row, col, d);
          return Some(d);
        }
        assert !FourFrom(g, row, col, d);
        d := d + 1;
      }
      return None;
    }

    /** How many equal cells, up to four, run from (row, col) along (dx, dy). */
    method CountFrom(row: int, col: int, dx: int, dy: int) returns (count: int)
      requires Valid() && InBoard(row, col)
      ensures count == 4 <==> Along(Grid(), row, col, dx, dy, 1) && Along(Grid(), row, col, dx, dy, 2) && Along(Grid(), row, col, dx, dy, 3)
    {
      ghost var g := Grid();
      var player := board[row, col];
      count := 1;
      var i := 1;
      while i < 4
        invariant 1 <= i <= 4 && count == i
        invariant forall j | 1 <= j < i :: Along(g, row, col, dx, dy, j)
      {
        var newRow := row + i * dx;
        var newCol := col + i * dy;
        if newRow < 0 || newRow >= ROWS || newCol < 0 || newCol >= COLS || board[newRow, newCol] != player {
          assert !Along(g, row, col, dx, dy, i);
          break;
        }
        count := count + 1;
        i := i + 1;
      }
    }

    /** Finished with the winner, finished on a full board, in progress otherwise. */
    method UpdateStatus()
      requires Valid()
      modifies this
      ensures (status, winner) == StatusAfter(Grid(), player1, player2, old(winner))
    {
      var w := CheckWinner();
      if w.Some? {
        status := Finished;
        winner := w;
      } else if IsFull(Grid()) {
        status := Finished;
      } else {
        status := InProgress;
      }
    }
  }
}
