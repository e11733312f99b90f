/** The board of the Score4 component as a value: a sequence of rows, row 0 at
    the top and row |b|-1 at the bottom, each cell a signed disk code
    (0 empty, 1 CPU, -1 human, 4 / -4 a disk of a winning run). */
module Board {

  datatype Option<T> = None | Some(value: T)

  type Grid = seq<seq<int>>

  /** The disk the human drops when clicking a column. */
  const Human: int := -1
  /** The disk the CPU drops, and the seed of a new game. */
  const Cpu: int := 1
  /** A human disk of a winning run; also CheckWinner's code for a human win. */
  const HumanWon: int := -4
  /** A CPU disk of a winning run; also CheckWinner's code for a CPU win. */
  const CpuWon: int := 4

  /** `b[row][column] === 0`; an index past the end of a row reads as
      `undefined` in the source, which is not 0. */
  predicate IsEmptyCell(b: Grid, row: int, column: int)
  {
    0 <= row < |b| && 0 <= column < |b[row]| && b[row][column] == 0
  }

  predicate Occupied(b: Grid, row: int, column: int)
  {
    0 <= row < |b| && 0 <= column < |b[row]| && b[row][column] != 0
  }

  predicate ColumnFull(b: Grid, column: int)
  {
    forall row :: 0 <= row < |b| ==> !IsEmptyCell(b, row, column)
  }

  predicate Rectangular(b: Grid, width: nat)
  {
    forall row :: 0 <= row < |b| ==> |b[row]| == width
  }

  /** Gravity: a disk never rests on an empty cell. */
  predicate Settled(b: Grid)
  {
    forall row, column :: 0 <= row < |b| - 1 && 0 <= column < |b[row]| && Occupied(b, row, column) ==> Occupied(b, row + 1, column)
  }

  /** The scan of dropDisk: rows `row`, `row - 1`, ..., 0, first empty one wins. */
  function ScanUp(b: Grid, column: int, row: int): (r: Option<nat>)
    requires -1 <= row < |b|
    decreases row + 1
    ensures r.Some? ==> r.value <= row && IsEmptyCell(b, r.value, column)
    ensures r.Some? ==> forall k :: r.value < k <= row ==> !IsEmptyCell(b, k, column)
    ensures r.None? <==> forall k :: 0 <= k <= row ==> !IsEmptyCell(b, k, column)
  {
    if row < 0 then None
    else if IsEmptyCell(b, row, column) then Some(row)
    else ScanUp(b, column, row - 1)
  }

  /** The lowest empty cell of `column`, that is the largest empty row index. */
  function LowestEmpty(b: Grid, column: int): (r: Option<nat>)
    ensures r.Some? ==> r.value < |b| && IsEmptyCell(b, r.value, column)
    ensures r.Some? ==> forall k :: r.value < k < |b| ==> !IsEmptyCell(b, k, column)
    ensures r.None? <==> ColumnFull(b, column)
  {
    ScanUp(b, column, |b| - 1)
  }

  /** Gravity placement of `color` in `column`; None when the column is full. */
  function Drop(b: Grid, column: int, color: int): (r: Option<Grid>)
    ensures r.None? <==> ColumnFull(b, column)
    ensures r.Some? ==> LowestEmpty(b, column).Some?
    ensures r.Some? ==> |r.value| == |b| && forall i :: 0 <= i < |b| ==> |r.value[i]| == |b[i]|
    ensures r.Some? ==> r.value[LowestEmpty(b, column).value][column] == color
    ensures r.Some? ==> forall i, j :: 0 <= i < |b| && 0 <= j < |b[i]| && (i != LowestEmpty(b, column).value || j != column) ==> r.value[i][j] == b[i][j]
  {
    match LowestEmpty(b, column)
    case None => None
    case Some(row) => Some(b[row := b[row][column := color]])
  }

  /** The board a click leaves behind: the dropped board, or the old one when the column is full. */
  function DropOrKeep(b: Grid, column: int, color: int): (r: Grid)
    ensures |r| == |b| && forall i :: 0 <= i < |b| ==> |r[i]| == |b[i]|
    ensures ColumnFull(b, column) ==> r == b
    ensures !ColumnFull(b, column) ==> r[LowestEmpty(b, column).value][column] == color
    ensures !ColumnFull(b, column) ==> forall i, j :: 0 <= i < |b| && 0 <= j < |b[i]| && (i != LowestEmpty(b, column).value || j != column) ==> r[i][j] == b[i][j]
  {
    match Drop(b, column, color)
    case Some(g) => g
    case None => b
  }

  /** Dropping a disk keeps a settled board settled. */
  lemma {:induction false} DropKeepsSettled(b: Grid, column: int, color: int, width: nat)
    requires Rectangular(b, width) && Settled(b) && color != 0
    requires Drop(b, column, color).Some?
    ensures Settled(Drop(b, column, color).value)
  {
    var g := Drop(b, column, color).value;
    var r := LowestEmpty(b, column).value;
    forall i, j | 0 <= i < |g| - 1 && 0 <= j < |g[i]| && Occupied(g, i, j)
      ensures Occupied(g, i + 1, j)
    {
      if i + 1 == r && j == column {
        assert g[r][column] == color;
      } else if i == r && j == column {
        assert !IsEmptyCell(b, i + 1, j);
        assert b[i + 1][j] != 0;
      } else {
        assert Occupied(b, i, j);
        assert Occupied(b, i + 1, j);
      }
    }
  }

  /** The board `reset` builds: all zeros, a CPU disk at the bottom of the middle column. */
  function InitialBoard(height: nat, width: nat): (b: Grid)
    requires height > 0 && width > 0
    ensures |b| == height && Rectangular(b, width)
    ensures forall row, column :: 0 <= row < height && 0 <= column < width ==>
              b[row][column] == (if row == height - 1 && column == width / 2 then Cpu else 0)
  {
    var zeros := seq(height, _ => seq(width, _ => 0));
    zeros[height - 1 := zeros[height - 1][width / 2 := Cpu]]
  }

  /** A new game is settled, and only the middle column holds a disk. */
  lemma InitialBoardSettled(height: nat, width: nat)
    requires height > 0 && width > 0
    ensures Settled(InitialBoard(height, width))
    ensures forall column :: 0 <= column < width && column != width / 2 ==> LowestEmpty(InitialBoard(height, width), column) == Some(height - 1)
    ensures LowestEmpty(InitialBoard(height, width), width / 2) == if height == 1 then None else Some(height - 2)
  {
    var b := InitialBoard(height, width);
    forall column | 0 <= column < width && column != width / 2
      ensures LowestEmpty(b, column) == Some(height - 1)
    {
      assert IsEmptyCell(b, height - 1, column);
    }
    if height > 1 {
      assert IsEmptyCell(b, height - 2, width / 2);
    }
  }
}
