/**
 * The 3x3 tic-tac-toe rules engine of the socket server: move legality, the
 * copy-on-write move, the fixed-order line scan, the result and the board's
 * JSON form. Every function is pure.
 */
module GameService {
  import opened Wrappers
  import opened SharedTypes

  const BOARD_SIZE: nat := 3

  predicate IsGrid(b: GameBoard) {
    |b| == BOARD_SIZE && forall i | 0 <= i < |b| :: |b[i]| == BOARD_SIZE
  }

  /** The boards the engine handles: every board it is given comes from createEmptyBoard. */
  type Board = b: GameBoard | IsGrid(b) witness [[Empty, Empty, Empty], [Empty, Empty, Empty], [Empty, Empty, Empty]]

  predicate InRange(row: int, col: int) {
    0 <= row < BOARD_SIZE && 0 <= col < BOARD_SIZE
  }

  function CreateEmptyBoard(): (b: Board)
    ensures forall i, j | InRange(i, j) :: b[i][j] == Empty
  {
    seq(BOARD_SIZE, _ => seq(BOARD_SIZE, _ => Empty))
  }

  predicate IsValidMove(b: Board, m: GameMove) {
    if m.row < 0 || m.row >= BOARD_SIZE || m.col < 0 || m.col >= BOARD_SIZE then false
    else b[m.row][m.col] == Empty
  }

  /** The mark `makeMove` writes: 'X' when `move.player === 1`, 'O' for any other value. */
  function MarkFor(player: int): Cell {
    if player == 1 then X else O
  }

  /**
   * `makeMove`: None stands for the thrown 'Invalid move'; otherwise a new board that
   * differs from the input in the target cell only.
   */
  function MakeMove(b: Board, m: GameMove): (r: Option<Board>)
    ensures r.Some? <==> IsValidMove(b, m)
    ensures r.Some? ==> r.value[m.row][m.col] == MarkFor(m.player)
    ensures r.Some? ==> forall i, j | InRange(i, j) && (i != m.row || j != m.col) :: r.value[i][j] == b[i][j]
  {
    if !IsValidMove(b, m) then None
    else Some(b[m.row := b[m.row][m.col := MarkFor(m.player)]])
  }

  /** A played cell can never be played again. */
  lemma NoDoubleOccupation(b: Board, m: GameMove)
    requires IsValidMove(b, m)
    ensures MakeMove(b, m).Some? && !IsValidMove(MakeMove(b, m).value, m)
  {
  }

  predicate IsBoardFull(b: Board) {
    forall i, j | 0 <= i < BOARD_SIZE && 0 <= j < BOARD_SIZE :: b[i][j] != Empty
  }

  // ---------------------------------------------------------------------------
  // checkWinner: the scan as the source writes it (rows, then columns, then the
  // main diagonal, then the anti-diagonal; the first complete line decides).

  predicate Three(a: Cell, b: Cell, c: Cell) {
    a != Empty && a == b && b == c
  }

  function WinnerOf(c: Cell): PlayerNumber {
    if c == X then 1 else 2
  }

  function CheckWinner(b: Board): Option<PlayerNumber> {
    ScanRows(b, 0)
  }

  function ScanRows(b: Board, row: nat): Option<PlayerNumber>
    decreases BOARD_SIZE - row
  {
    if row >= BOARD_SIZE then ScanColumns(b, 0)
    else if Three(b[row][0], b[row][1], b[row][2]) then Some(WinnerOf(b[row][0]))
    else ScanRows(b, row + 1)
  }

  function ScanColumns(b: Board, col: nat): Option<PlayerNumber>
    decreases BOARD_SIZE - col
  {
    if col >= BOARD_SIZE then ScanDiagonals(b)
    else if Three(b[0][col], b[1][col], b[2][col]) then Some(WinnerOf(b[0][col]))
    else ScanColumns(b, col + 1)
  }

  function ScanDiagonals(b: Board): Option<PlayerNumber> {
    if Three(b[0][0], b[1][1], b[2][2]) then Some(WinnerOf(b[0][0]))
    else if Three(b[0][2], b[1][1], b[2][0]) then Some(WinnerOf(b[0][2]))
    else None
  }

  // The reference: a table of the eight lines in scan order.

  const LINE_COUNT: nat := 8

  function Line(k: nat): (l: seq<(nat, nat)>)
    requires k < LINE_COUNT
    ensures |l| == 3 && forall i | 0 <= i < 3 :: InRange(l[i].0, l[i].1)
  {
    if k < 3 then [(k, 0), (k, 1), (k, 2)]
    else if k < 6 then [(0, k - 3), (1, k - 3), (2, k - 3)]
    else if k == 6 then [(0, 0), (1, 1), (2, 2)]
    else [(0, 2), (1, 1), (2, 0)]
  }

  function LineCell(b: Board, k: nat, i: nat): Cell
    requires k < LINE_COUNT && i < 3
  {
    b[Line(k)[i].0][Line(k)[i].1]
  }

  predicate LineComplete(b: Board, k: nat)
    requires k < LINE_COUNT
  {
    Three(LineCell(b, k, 0), LineCell(b, k, 1), LineCell(b, k, 2))
  }

  predicate HasLine(b: Board) {
    exists k | 0 <= k < LINE_COUNT :: LineComplete(b, k)
  }

  /** The index of the first complete line at index `k` or later in the table. */
  function FirstLine(b: Board, k: nat): (r: Option<nat>)
    ensures r.None? <==> forall j | k <= j < LINE_COUNT :: !LineComplete(b, j)
    ensures r.Some? ==> k <= r.value < LINE_COUNT && LineComplete(b, r.value)
    ensures r.Some? ==> forall j | k <= j < r.value :: !LineComplete(b, j)
    decreases LINE_COUNT - k
  {
    if k >= LINE_COUNT then None
    else if LineComplete(b, k) then Some(k)
    else FirstLine(b, k + 1)
  }

  /** The winner the table gives when the scan starts at line `k`. */
  function FirstLineWinner(b: Board, k: nat): Option<PlayerNumber> {
    match FirstLine(b, k)
    case None => None
    case Some(j) => Some(WinnerOf(LineCell(b, j, 0)))
  }

  lemma {:induction false} ScanRowsIsFirstLine(b: Board, row: nat)
    requires row <= BOARD_SIZE
    ensures ScanRows(b, row) == FirstLineWinner(b, row)
    decreases BOARD_SIZE - row
  {
    if row < BOARD_SIZE {
      assert LineComplete(b, row) == Three(b[row][0], b[row][1], b[row][2]);
      ScanRowsIsFirstLine(b, row + 1);
    } else {
      ScanColumnsIsFirstLine(b, 0);
    }
  }

  lemma {:induction false} ScanColumnsIsFirstLine(b: Board, col: nat)
    requires col <= BOARD_SIZE
    ensures ScanColumns(b, col) == FirstLineWinner(b, 3 + col)
    decreases BOARD_SIZE - col
  {
    if col < BOARD_SIZE {
      assert LineComplete(b, 3 + col) == Three(b[0][col], b[1][col], b[2][col]);
      ScanColumnsIsFirstLine(b, col + 1);
    } else {
      assert LineComplete(b, 6) == Three(b[0][0], b[1][1], b[2][2]);
      assert LineComplete(b, 7) == Three(b[0][2], b[1][1], b[2][0]);
      assert FirstLine(b, 8) == None;
    }
  }

  /** The source's loops report exactly the first complete line of the table. */
  lemma CheckWinnerIsFirstLine(b: Board)
    ensures CheckWinner(b) == FirstLineWinner(b, 0)
  {
    ScanRowsIsFirstLine(b, 0);
  }

  /**
   * checkWinner is null exactly when no row, column or diagonal holds three equal marks;
   * otherwise it names the owner of the first such line in scan order (1 for 'X').
   */
  lemma CheckWinnerSpec(b: Board)
    ensures CheckWinner(b).None? <==> !HasLine(b)
    ensures CheckWinner(b).Some? ==>
      exists k | 0 <= k < LINE_COUNT ::
        && LineComplete(b, k)
        && (forall j | 0 <= j < k :: !LineComplete(b, j))
        && CheckWinner(b).value == (if LineCell(b, k, 0) == X then 1 else 2)
  {
    CheckWinnerIsFirstLine(b);
    if CheckWinner(b).Some? {
      var k := FirstLine(b, 0).value;
      assert LineComplete(b, k) && forall j | 0 <= j < k :: !LineComplete(b, j);
    }
  }

  /** A line of X's gives 1 and a line of O's gives 2, read from the mark of the line. */
  lemma CheckWinnerMark(b: Board)
    requires CheckWinner(b).Some?
    ensures exists k | 0 <= k < LINE_COUNT :: LineComplete(b, k) && LineCell(b, k, 0) == (if CheckWinner(b).value == 1 then X else O)
  {
    CheckWinnerSpec(b);
  }

  // ---------------------------------------------------------------------------

  function GetGameResult(b: Board): GameResult {
    var winner := CheckWinner(b);
    if winner == Some(1) then Player1Win
    else if winner == Some(2) then Player2Win
    else if IsBoardFull(b) then Draw
    else NoResult
  }

  /**
   * A line wins even on a full board, a full board without a line is a draw, and the
   * result is null exactly when there is no line and an empty cell remains.
   */
  lemma GameResultSpec(b: Board)
    ensures HasLine(b) ==> GetGameResult(b) == Player1Win || GetGameResult(b) == Player2Win
    ensures IsBoardFull(b) && !HasLine(b) ==> GetGameResult(b) == Draw
    ensures GetGameResult(b) == NoResult <==> !HasLine(b) && !IsBoardFull(b)
    ensures GetGameResult(b) == Draw <==> !HasLine(b) && IsBoardFull(b)
  {
    CheckWinnerSpec(b);
  }

  // ---------------------------------------------------------------------------
  // The JSON form stored in the match table: `(string | null)[][]`.

  type SerialBoard = seq<seq<Option<string>>>

  function SerializeCell(c: Cell): Option<string> {
    match c
    case X => Some("X")
    case O => Some("O")
    case Empty => None
  }

  /** Any cell other than "X" and "O" reads back as null. */
  function DeserializeCell(s: Option<string>): Cell {
    if s == Some("X") then X else if s == Some("O") then O else Empty
  }

  function SerializeBoard(b: GameBoard): (s: SerialBoard)
    ensures |s| == |b| && forall i | 0 <= i < |b| :: |s[i]| == |b[i]|
  {
    seq(|b|, i requires 0 <= i < |b| => seq(|b[i]|, j requires 0 <= j < |b[i]| => SerializeCell(b[i][j])))
  }

  function DeserializeBoard(s: SerialBoard): (b: GameBoard)
    ensures |b| == |s| && forall i | 0 <= i < |s| :: |b[i]| == |s[i]|
  {
    seq(|s|, i requires 0 <= i < |s| => seq(|s[i]|, j requires 0 <= j < |s[i]| => DeserializeCell(s[i][j])))
  }

  lemma DeserializeSerialize(b: GameBoard)
    ensures DeserializeBoard(SerializeBoard(b)) == b
  {
    var r := DeserializeBoard(SerializeBoard(b));
    forall i | 0 <= i < |b| ensures r[i] == b[i] {
      assert |r[i]| == |b[i]|;
      forall j | 0 <= j < |b[i]| ensures r[i][j] == b[i][j] {
        assert r[i][j] == DeserializeCell(SerializeCell(b[i][j]));
      }
    }
  }

  /** Reading a stored board twice gives what reading it once gives. */
  lemma DeserializeIdempotent(s: SerialBoard)
    ensures DeserializeBoard(SerializeBoard(DeserializeBoard(s))) == DeserializeBoard(s)
  {
    DeserializeSerialize(DeserializeBoard(s));
  }

  /** A cell reads back as a mark only when it is that mark's string. */
  lemma DeserializeCells(s: SerialBoard, i: nat, j: nat)
    requires i < |s| && j < |s[i]|
    ensures DeserializeBoard(s)[i][j] == X <==> s[i][j] == Some("X")
    ensures DeserializeBoard(s)[i][j] == O <==> s[i][j] == Some("O")
    ensures DeserializeBoard(s)[i][j] == Empty <==> s[i][j] != Some("X") && s[i][j] != Some("O")
  {
  }

  // ---------------------------------------------------------------------------
  // The number of marks on a board, to relate a board to the turns recorded for it.

  function RowMarks(r: seq<Cell>): nat
    requires |r| == BOARD_SIZE
  {
    (if r[0] != Empty then 1 else 0) + (if r[1] != Empty then 1 else 0) + (if r[2] != Empty then 1 else 0)
  }

  function MarkCount(b: Board): nat {
    RowMarks(b[0]) + RowMarks(b[1]) + RowMarks(b[2])
  }

  lemma EmptyBoardHasNoMarks()
    ensures MarkCount(CreateEmptyBoard()) == 0
  {
  }

  /** Every successful move adds exactly one mark. */
  lemma MakeMoveAddsOneMark(b: Board, m: GameMove)
    requires IsValidMove(b, m)
    ensures MarkCount(MakeMove(b, m).value) == MarkCount(b) + 1
  {
    var r := MakeMove(b, m).value;
    assert r[m.row] == b[m.row][m.col := MarkFor(m.player)];
  }
}
