/** The 5x5 grid, the legality check for a move, and win/tie detection.
    The bodies of the board's own operations are outside this model: the grid
    size, the four scanned axes and the winning run of five are taken from the
    unit tests (a five-cell anti-diagonal wins; a full board whose longest runs
    are four is a tie). */
module Board {
  import opened Base

  const BOARD_SIZE: nat := 5
  const WIN_LENGTH: nat := 5

  datatype Piece = X | O {
    function Other(): (p: Piece)
      ensures p != this
    {
      if this == X then O else X
    }
  }

  /** The board's winner tag: a piece, or a tie. */
  datatype Winner = Won(piece: Piece) | Tied

  type Tiles = seq<seq<Option<Piece>>>

  /** A 5x5 grid, the shape of the fixed-size array the board stores. */
  type Grid = t: Tiles | WellFormed(t) witness EmptyTiles()

  datatype Board = Board(tiles: Grid, winner: Option<Winner>)

  datatype MoveError =
    | GameAlreadyOver
    | InvalidPosition(row: nat, col: nat)
    | TileFilled(otherPiece: Piece, row: nat, col: nat)

  predicate WellFormed(t: Tiles) {
    |t| == BOARD_SIZE && forall r | 0 <= r < |t| :: |t[r]| == BOARD_SIZE
  }

  predicate InBounds(row: int, col: int) {
    0 <= row < BOARD_SIZE && 0 <= col < BOARD_SIZE
  }

  /** The cell at (row, col), or `None` off the grid. */
  function At(t: Tiles, row: int, col: int): Option<Piece> {
    if 0 <= row < |t| && 0 <= col < |t[row]| then t[row][col] else None
  }

  function EmptyTiles(): (t: Tiles)
    ensures WellFormed(t)
    ensures forall r, c | InBounds(r, c) :: t[r][c] == None
  {
    seq(BOARD_SIZE, _ => seq(BOARD_SIZE, _ => None))
  }

  function EmptyBoard(): Board {
    Board(EmptyTiles(), None)
  }

  /** Every cell holds a piece. */
  predicate Full(t: Tiles) {
    forall r, c | 0 <= r < |t| && 0 <= c < |t[r]| :: t[r][c].Some?
  }

  /** Every cell occupied in `t` holds the same piece in `t'`. */
  ghost predicate Extends(t: Tiles, t': Tiles) {
    forall r, c | InBounds(r, c) && At(t, r, c).Some? :: At(t', r, c) == At(t, r, c)
  }

  /** A move is legal when it is on the grid and the cell is empty; otherwise
      the failure tells an off-grid position from an occupied cell. */
  function CheckMove(t: Tiles, row: nat, col: nat): (r: Option<MoveError>)
    requires WellFormed(t)
    ensures r.None? <==> InBounds(row, col) && t[row][col].None?
    ensures r == Some(InvalidPosition(row, col)) <==> !InBounds(row, col)
    ensures r.Some? && r.value.TileFilled? ==>
              InBounds(row, col) && r.value == TileFilled(t[row][col].value, row, col)
  {
    if !InBounds(row, col) then Some(InvalidPosition(row, col))
    else if t[row][col].Some? then Some(TileFilled(t[row][col].value, row, col))
    else None
  }

  /** The grid with `p` written at (row, col). */
  function Place(t: Grid, row: nat, col: nat, p: Piece): (t': Grid)
    requires InBounds(row, col)
    ensures WellFormed(t')
    ensures t'[row][col] == Some(p)
    ensures forall r, c | InBounds(r, c) && (r != row || c != col) :: t'[r][c] == t[r][c]
  {
    t[row := t[row][col := Some(p)]]
  }

  /** The cell `k` steps from (row, col) in direction (dr, dc). */
  function Along(t: Tiles, row: int, col: int, dr: int, dc: int, k: int): Option<Piece> {
    At(t, row + k * dr, col + k * dc)
  }

  /** The number of consecutive cells holding `p`, starting at (row, col) and
      stepping by (dr, dc), looking at most `fuel` cells. */
  function Run(t: Tiles, row: int, col: int, dr: int, dc: int, p: Piece, fuel: nat): nat
    decreases fuel
  {
    if fuel == 0 || At(t, row, col) != Some(p) then 0
    else 1 + Run(t, row + dr, col + dc, dr, dc, p, fuel - 1)
  }

  /** The length of the maximal run of `p` through (row, col) along one axis:
      forward from the cell itself plus backward from its predecessor. */
  function AxisLength(t: Tiles, row: int, col: int, dr: int, dc: int, p: Piece): nat {
    Run(t, row, col, dr, dc, p, BOARD_SIZE) + Run(t, row - dr, col - dc, -dr, -dc, p, BOARD_SIZE)
  }

  /** The four scanned axes: horizontal, vertical and both diagonals. */
  predicate IsAxis(dr: int, dc: int) {
    (dr == 0 && dc == 1) || (dr == 1 && dc == 0) || (dr == 1 && dc == 1) || (dr == 1 && dc == -1)
  }

  predicate WinsAt(t: Tiles, row: int, col: int, p: Piece) {
    || AxisLength(t, row, col, 0, 1, p) >= WIN_LENGTH
    || AxisLength(t, row, col, 1, 0, p) >= WIN_LENGTH
    || AxisLength(t, row, col, 1, 1, p) >= WIN_LENGTH
    || AxisLength(t, row, col, 1, -1, p) >= WIN_LENGTH
  }

  /** WIN_LENGTH cells holding `p`, starting at (row, col) in direction (dr, dc). */
  ghost predicate Segment(t: Tiles, row: int, col: int, dr: int, dc: int, p: Piece) {
    forall k | 0 <= k < WIN_LENGTH :: Along(t, row, col, dr, dc, k) == Some(p)
  }

  /** The winner after a piece has been written at (row, col): that piece if it
      completes a winning run, a tie if the board is now full, else none. */
  function UpdateWinner(t: Tiles, row: nat, col: nat): (w: Option<Winner>)
    requires WellFormed(t) && InBounds(row, col) && t[row][col].Some?
    ensures w.Some? && w.value.Won? ==> w.value.piece == t[row][col].value
    ensures w == Some(Tied) <==> Full(t) && !WinsAt(t, row, col, t[row][col].value)
    ensures w.None? ==> !Full(t)
  {
    var p := t[row][col].value;
    if WinsAt(t, row, col, p) then Some(Won(p))
    else if Full(t) then Some(Tied)
    else None
  }

  /** Every cell counted by `Run` holds `p`. */
  lemma {:induction false} RunSound(t: Tiles, row: int, col: int, dr: int, dc: int, p: Piece, fuel: nat, k: int)
    requires 0 <= k < Run(t, row, col, dr, dc, p, fuel)
    ensures Along(t, row, col, dr, dc, k) == Some(p)
    decreases fuel
  {
    if k > 0 {
      RunSound(t, row + dr, col + dc, dr, dc, p, fuel - 1, k - 1);
      Shift(row, dr, 1, k - 1);
      Shift(col, dc, 1, k - 1);
    }
  }

  /** `Run` counts at least as far as the run of `p` actually reaches. */
  lemma {:induction false} RunComplete(t: Tiles, row: int, col: int, dr: int, dc: int, p: Piece, fuel: nat, n: nat)
    requires n <= fuel
    requires forall k | 0 <= k < n :: Along(t, row, col, dr, dc, k) == Some(p)
    ensures Run(t, row, col, dr, dc, p, fuel) >= n
    decreases fuel
  {
    if n > 0 {
      assert Along(t, row, col, dr, dc, 0) == Some(p);
      var row1, col1 := row + dr, col + dc;
      forall k | 0 <= k < n - 1
        ensures Along(t, row1, col1, dr, dc, k) == Some(p)
      {
        assert Along(t, row, col, dr, dc, k + 1) == Some(p);
        Shift(row, dr, 1, k);
        Shift(col, dc, 1, k);
      }
      RunComplete(t, row1, col1, dr, dc, p, fuel - 1, n - 1);
    }
  }

  /** Stepping `a` and then `b` times from `x` by `d` is stepping `a + b` times. */
  lemma Shift(x: int, d: int, a: int, b: int)
    ensures x + a * d + b * d == x + (a + b) * d
  {
  }

  /** A run of length `n` along an axis through (row, col) contains a
      WIN_LENGTH segment through the cell, once `n` reaches WIN_LENGTH. */
  lemma AxisSegment(t: Tiles, row: int, col: int, dr: int, dc: int, p: Piece) returns (j: nat)
    requires At(t, row, col) == Some(p)
    requires AxisLength(t, row, col, dr, dc, p) >= WIN_LENGTH
    ensures j < WIN_LENGTH
    ensures Segment(t, row - j * dr, col - j * dc, dr, dc, p)
  {
    var f := Run(t, row, col, dr, dc, p, BOARD_SIZE);
    var b := Run(t, row - dr, col - dc, -dr, -dc, p, BOARD_SIZE);
    assert f >= 1 && f + b >= WIN_LENGTH;
    j := if f >= WIN_LENGTH then 0 else WIN_LENGTH - f;
    var row0, col0 := row - j * dr, col - j * dc;
    forall k | 0 <= k < WIN_LENGTH
      ensures Along(t, row0, col0, dr, dc, k) == Some(p)
    {
      AxisCell(t, row, col, dr, dc, p, j, k);
    }
  }

  /** One cell of the segment built in `AxisSegment`: cells at or after
      (row, col) come from the forward run, earlier ones from the backward run. */
  lemma AxisCell(t: Tiles, row: int, col: int, dr: int, dc: int, p: Piece, j: nat, k: int)
    requires 0 <= k < WIN_LENGTH
    requires k >= j ==> k - j < Run(t, row, col, dr, dc, p, BOARD_SIZE)
    requires k < j ==> j - k - 1 < Run(t, row - dr, col - dc, -dr, -dc, p, BOARD_SIZE)
    ensures Along(t, row - j * dr, col - j * dc, dr, dc, k) == Some(p)
  {
    if k >= j {
      ForwardCell(t, row, col, dr, dc, p, j, k);
    } else {
      BackwardCell(t, row, col, dr, dc, p, j, k);
    }
  }

  lemma ForwardCell(t: Tiles, row: int, col: int, dr: int, dc: int, p: Piece, j: nat, k: int)
    requires j <= k && k - j < Run(t, row, col, dr, dc, p, BOARD_SIZE)
    ensures Along(t, row - j * dr, col - j * dc, dr, dc, k) == Some(p)
  {
    RunSound(t, row, col, dr, dc, p, BOARD_SIZE, k - j);
    Offset(row, dr, j, k, k - j);
    Offset(col, dc, j, k, k - j);
  }

  lemma BackwardCell(t: Tiles, row: int, col: int, dr: int, dc: int, p: Piece, j: nat, k: int)
    requires 0 <= k < j && j - k - 1 < Run(t, row - dr, col - dc, -dr, -dc, p, BOARD_SIZE)
    ensures Along(t, row - j * dr, col - j * dc, dr, dc, k) == Some(p)
  {
    RunSound(t, row - dr, col - dc, -dr, -dc, p, BOARD_SIZE, j - k - 1);
    BackOffset(row, dr, j, k);
    BackOffset(col, dc, j, k);
  }

  /** The `k`-th cell after `x - j * d` is `x + m * d` with `m == k - j`. */
  lemma Offset(x: int, d: int, j: int, k: int, m: int)
    requires m == k - j
    ensures x - j * d + k * d == x + m * d
  {
  }

  /** For `k < j`, the `k`-th cell after `x - j * d` is the `(j - k - 1)`-th
      cell backward from `x - d`. */
  lemma BackOffset(x: int, d: int, j: int, k: int)
    ensures x - j * d + k * d == x - d + (j - k - 1) * -d
  {
    assert (j - k - 1) * -d == -(j * d) + k * d + d;
  }

  /** A winning segment through (row, col) along an axis makes that axis long enough. */
  lemma SegmentAxis(t: Tiles, row: int, col: int, dr: int, dc: int, p: Piece, j: nat)
    requires j < WIN_LENGTH
    requires Segment(t, row - j * dr, col - j * dc, dr, dc, p)
    ensures AxisLength(t, row, col, dr, dc, p) >= WIN_LENGTH
  {
    forall k | 0 <= k < WIN_LENGTH - j
      ensures Along(t, row, col, dr, dc, k) == Some(p)
    {
      SegmentAhead(t, row, col, dr, dc, p, j, k);
    }
    RunComplete(t, row, col, dr, dc, p, BOARD_SIZE, WIN_LENGTH - j);
    var row1, col1, ndr, ndc := row - dr, col - dc, -dr, -dc;
    forall k | 0 <= k < j
      ensures Along(t, row1, col1, ndr, ndc, k) == Some(p)
    {
      SegmentBehind(t, row, col, dr, dc, p, j, k);
    }
    RunComplete(t, row1, col1, ndr, ndc, p, BOARD_SIZE, j);
  }

  /** The part of the segment from (row, col) on, read forward from the cell. */
  lemma SegmentAhead(t: Tiles, row: int, col: int, dr: int, dc: int, p: Piece, j: nat, k: int)
    requires j < WIN_LENGTH && 0 <= k < WIN_LENGTH - j
    requires Segment(t, row - j * dr, col - j * dc, dr, dc, p)
    ensures Along(t, row, col, dr, dc, k) == Some(p)
  {
    assert Along(t, row - j * dr, col - j * dc, dr, dc, k + j) == Some(p);
    Shift(row, dr, -(j as int), k + j);
    Shift(col, dc, -(j as int), k + j);
  }

  /** The part of the segment before (row, col), read backward from the
      cell's predecessor. */
  lemma SegmentBehind(t: Tiles, row: int, col: int, dr: int, dc: int, p: Piece, j: nat, k: int)
    requires j < WIN_LENGTH && 0 <= k < j
    requires Segment(t, row - j * dr, col - j * dc, dr, dc, p)
    ensures Along(t, row - dr, col - dc, -dr, -dc, k) == Some(p)
  {
    assert Along(t, row - j * dr, col - j * dc, dr, dc, j - k - 1) == Some(p);
    BackOffset(row, dr, j, j - k - 1);
    BackOffset(col, dc, j, j - k - 1);
    assert row - j * dr + (j - k - 1) * dr == row - dr + k * -dr;
    assert col - j * dc + (j - k - 1) * dc == col - dc + k * -dc;
  }

  /** Soundness of win detection: a reported win has WIN_LENGTH cells of the
      winning piece in a line along one of the four axes, through the played cell. */
  lemma WinHasLine(t: Tiles, row: nat, col: nat, p: Piece) returns (dr: int, dc: int, j: nat)
    requires WellFormed(t) && InBounds(row, col) && t[row][col].Some?
    requires UpdateWinner(t, row, col) == Some(Won(p))
    ensures IsAxis(dr, dc) && j < WIN_LENGTH
    ensures Segment(t, row - j * dr, col - j * dc, dr, dc, p)
  {
    assert At(t, row, col) == Some(p);
    if AxisLength(t, row, col, 0, 1, p) >= WIN_LENGTH {
      dr, dc := 0, 1;
    } else if AxisLength(t, row, col, 1, 0, p) >= WIN_LENGTH {
      dr, dc := 1, 0;
    } else if AxisLength(t, row, col, 1, 1, p) >= WIN_LENGTH {
      dr, dc := 1, 1;
    } else {
      dr, dc := 1, -1;
    }
    j := AxisSegment(t, row, col, dr, dc, p);
  }

  /** Completeness of win detection: when the played piece completes a line of
      WIN_LENGTH along an axis through the played cell, the move wins. */
  lemma LineWins(t: Tiles, row: nat, col: nat, dr: int, dc: int, j: nat, p: Piece)
    requires WellFormed(t) && InBounds(row, col) && t[row][col] == Some(p)
    requires IsAxis(dr, dc) && j < WIN_LENGTH
    requires Segment(t, row - j * dr, col - j * dc, dr, dc, p)
    ensures UpdateWinner(t, row, col) == Some(Won(p))
  {
    SegmentAxis(t, row, col, dr, dc, p, j);
  }
}
