/** The Score4 component's session state and the game logic it runs itself:
    gravity placement of the human's disk, building a new board, the click
    guard, the end-of-game tally and the search-depth knob. */
module Score4Game {
  import opened Board

  const GameOverMessage: string := "GAME OVER - Try again?"
  const InitialMessage: string := "Click on any column to drop a green chip..."
  const ThinkingMessage: string := "Thinking, please wait..."

  /** What the rules engine's CheckWinner reports: whether the game is over
      and, if so, the winning code (`CpuWon`, `HumanWon`, anything else a draw). */
  datatype CheckResult = CheckResult(allDone: bool, winner: int)

  datatype Tally = Tally(wins: nat, losses: nat)

  /** The tally after a check: the human's wins go up exactly when the human
      won, the CPU's wins (the human's losses) exactly when the CPU won. */
  function Record(t: Tally, check: CheckResult): (r: Tally)
    ensures r.wins >= t.wins && r.losses >= t.losses
    ensures r.wins + r.losses <= t.wins + t.losses + 1
    ensures r.wins > t.wins <==> check.allDone && check.winner == HumanWon
    ensures r.losses > t.losses <==> check.allDone && check.winner == CpuWon
  {
    if !check.allDone then t
    else if check.winner == CpuWon then t.(losses := t.losses + 1)
    else if check.winner == HumanWon then t.(wins := t.wins + 1)
    else t
  }

  /** The depths the difficulty buttons can reach from `defaultDepth`. */
  predicate DepthInRange(depth: int, defaultDepth: int)
  {
    (if defaultDepth < 2 then defaultDepth else 2) <= depth <= defaultDepth + 1
  }

  /** "Be dumber!": one ply less, never below 2. */
  function DumberDepth(depth: int): (r: int)
    ensures r < depth <==> depth > 2
    ensures r == depth || r == depth - 1
    ensures forall defaultDepth :: DepthInRange(depth, defaultDepth) ==> DepthInRange(r, defaultDepth)
  {
    if depth > 2 then depth - 1 else depth
  }

  /** "Be smarter!": one ply more, never above defaultDepth + 1. */
  function SmarterDepth(depth: int, defaultDepth: int): (r: int)
    ensures r > depth <==> depth < defaultDepth + 1
    ensures r == depth || r == depth + 1
    ensures DepthInRange(depth, defaultDepth) ==> DepthInRange(r, defaultDepth)
  {
    if depth < defaultDepth + 1 then depth + 1 else depth
  }

  /** With the usual defaultDepth of at least 2, the depth stays in [2, defaultDepth + 1]. */
  lemma DepthBounds(depth: int, defaultDepth: int)
    requires defaultDepth >= 2 && DepthInRange(depth, defaultDepth)
    ensures 2 <= DumberDepth(depth) <= defaultDepth + 1
    ensures 2 <= SmarterDepth(depth, defaultDepth) <= defaultDepth + 1
  {
  }

  /** The cell values a board array holds, row by row. */
  ghost function Cells(b: array<array<int>>): (g: Grid)
    reads b, b[..]
    ensures |g| == b.Length && forall i :: 0 <= i < b.Length ==> g[i] == b[i][..]
  {
    seq(b.Length, i requires 0 <= i < b.Length reads b, b[..] => b[i][..])
  }

  class Score4 {
    /** Board dimensions and the recommended depth come from the rules engine. */
    const height: nat
    const width: nat
    const defaultDepth: int

    var board: array<array<int>>
    var info: string
    var wins: nat
    var losses: nat
    var brainDepth: int
    var canClick: bool

    ghost predicate Valid()
      reads this, board, board[..]
    {
      height > 0 && width > 0 &&
      board.Length == height && Rectangular(Cells(board), width) &&
      DepthInRange(brainDepth, defaultDepth)
    }

    /** `reset()`, then zeroed counters and the default depth. */
    constructor (height: nat, width: nat, defaultDepth: int)
      requires height > 0 && width > 0
      ensures Valid() && fresh(board)
      ensures this.height == height && this.width == width && this.defaultDepth == defaultDepth
      ensures Cells(board) == InitialBoard(height, width) && Settled(Cells(board))
      ensures info == InitialMessage && canClick
      ensures wins == 0 && losses == 0 && brainDepth == defaultDepth
    {
      this.height, this.width, this.defaultDepth := height, width, defaultDepth;
      var b := NewBoard(height, width);
      board := b;
      info, canClick := InitialMessage, true;
      wins, losses := 0, 0;
      brainDepth := defaultDepth;
      InitialBoardSettled(height, width);
    }

    /** The board `reset` builds: `height` fresh, distinct rows of zeros
        pushed one after the other, then the CPU's seed disk. */
    static method NewBoard(height: nat, width: nat) returns (b: array<array<int>>)
      requires height > 0 && width > 0
      ensures fresh(b) && b.Length == height
      ensures forall y :: 0 <= y < height ==> fresh(b[y])
      ensures forall y, y' :: 0 <= y < y' < height ==> b[y] != b[y']
      ensures Cells(b) == InitialBoard(height, width)
    {
      var rows: seq<array<int>> := [];
      for y := 0 to height
        invariant |rows| == y
        invariant forall i :: 0 <= i < y ==> fresh(rows[i]) && rows[i][..] == seq(width, _ => 0)
        invariant forall i, j :: 0 <= i < j < y ==> rows[i] != rows[j]
      {
        var r: seq<int> := [];
        for x := 0 to width
          invariant r == seq(x, _ => 0)
        {
          r := r + [0];
        }
        var row := new int[width](i requires 0 <= i < width => r[i]);
        rows := rows + [row];
      }
      b := new array<int>[height](i requires 0 <= i < height => rows[i]);
      var bottom, middle := height - 1, width / 2;
      b[bottom][middle] := Cpu;
      assert forall y :: 0 <= y < height && y != bottom ==> b[y][..] == seq(width, _ => 0);
    }

    /** `reset()`: a new board and the opening message; the tally and the
        depth are kept. */
    method Reset()
      requires Valid()
      modifies this
      ensures Valid() && fresh(board)
      ensures Cells(board) == InitialBoard(height, width) && Settled(Cells(board))
      ensures info == InitialMessage && canClick
      ensures wins == old(wins) && losses == old(losses) && brainDepth == old(brainDepth)
    {
      board := NewBoard(height, width);
      info := InitialMessage;
      canClick := true;
      InitialBoardSettled(height, width);
    }

    /** `dropDisk`: scans `column` from the bottom row up and puts `color` in
        the first empty cell. The row is replaced by a fresh copy, but the
        outer array is the one given, updated in place, and is returned;
        null when the column is full. */
    method DropDisk(oldBoard: array<array<int>>, column: int, color: int) returns (newBoard: array?<array<int>>)
      requires oldBoard.Length == height
      modifies oldBoard
      ensures newBoard == null <==> ColumnFull(old(Cells(oldBoard)), column)
      ensures newBoard != null ==> newBoard == oldBoard
      ensures Cells(oldBoard) == DropOrKeep(old(Cells(oldBoard)), column, color)
      ensures forall i :: 0 <= i < height && Some(i) != LowestEmpty(old(Cells(oldBoard)), column) ==> oldBoard[i] == old(oldBoard[i])
      ensures forall i :: 0 <= i < height && Some(i) == LowestEmpty(old(Cells(oldBoard)), column) ==> fresh(oldBoard[i])
      ensures forall i :: 0 <= i < height ==> unchanged(old(oldBoard[i]))
    {
      var row := height - 1;
      while row >= 0
        invariant -1 <= row < height
        invariant forall k :: row < k < height ==> !IsEmptyCell(Cells(oldBoard), k, column)
      {
        var r := oldBoard[row];
        if 0 <= column < r.Length && r[column] == 0 {
          ghost var before := Cells(oldBoard);
          assert IsEmptyCell(before, row, column);
          assert LowestEmpty(before, column) == Some(row);
          var copy := new int[r.Length](i requires 0 <= i < r.Length reads r => r[i]);
          copy[column] := color;
          assert copy[..] == before[row][column := color];
          oldBoard[row] := copy;
          assert Cells(oldBoard) == before[row := before[row][column := color]];
          return oldBoard;
        }
        row := row - 1;
      }
      return null;
    }

    predicate GameOver()
      reads this
    {
      info == GameOverMessage
    }

    /** `checkEndGame`: `check` is what CheckWinner reports, `pendingMessage`
        and `nextBoard` what the caller's thunks give, `keepClicking` the
        click permission to set when the game goes on. */
    method CheckEndGame(check: CheckResult, pendingMessage: string, nextBoard: array<array<int>>, keepClicking: bool) returns (done: bool)
      requires Valid() && nextBoard.Length == height && Rectangular(Cells(nextBoard), width)
      modifies this
      ensures Valid()
      ensures done == check.allDone
      ensures Tally(wins, losses) == Record(old(Tally(wins, losses)), check)
      ensures info == (if check.allDone then GameOverMessage else pendingMessage)
      ensures canClick == (!check.allDone && keepClicking)
      ensures board == nextBoard && brainDepth == old(brainDepth)
    {
      var msg: string;
      var clickable := keepClicking;
      if check.allDone {
        if check.winner == CpuWon {
          losses := losses + 1;
        } else if check.winner == HumanWon {
          wins := wins + 1;
        }
        msg := GameOverMessage;
        clickable := false;
      } else {
        msg := pendingMessage;
      }
      board, info, canClick := nextBoard, msg, clickable;
      done := check.allDone;
    }

    /** `handleClick(column)`: ignored unless clicks are allowed and the game
        is not over; otherwise the human's disk is dropped, the end of the game
        checked with `check` (CheckWinner's report on the new board), and the
        CPU's move is due exactly when the game goes on. */
    method HandleClick(column: int, check: CheckResult) returns (cpuMoveDue: bool)
      requires Valid()
      modifies this, board
      ensures Valid()
      ensures old(!canClick || GameOver()) ==> unchanged(this) && unchanged(board) && !cpuMoveDue
      ensures old(canClick && !GameOver()) ==>
                board == old(board) &&
                Cells(board) == DropOrKeep(old(Cells(board)), column, Human) &&
                Tally(wins, losses) == Record(old(Tally(wins, losses)), check) &&
                info == (if check.allDone then GameOverMessage else ThinkingMessage) &&
                !canClick && brainDepth == old(brainDepth) &&
                cpuMoveDue == !check.allDone
      ensures old(Settled(Cells(board))) ==> Settled(Cells(board))
    {
      if !canClick {
        return false;
      }
      if GameOver() {
        return false;
      }
      ghost var before := Cells(board);
      var newBoard := DropDisk(board, column, Human);
      if newBoard != null && Settled(before) {
        DropKeepsSettled(before, column, Human, width);
      }
      var next := if newBoard != null then newBoard else board;
      var done := CheckEndGame(check, ThinkingMessage, next, false);
      cpuMoveDue := !done;
    }

    /** The "Be dumber!" button. */
    method Dumber()
      requires Valid()
      modifies this`brainDepth
      ensures Valid() && brainDepth == DumberDepth(old(brainDepth))
    {
      if brainDepth > 2 {
        brainDepth := brainDepth - 1;
      }
    }

    /** The "Be smarter!" button. */
    method Smarter()
      requires Valid()
      modifies this`brainDepth
      ensures Valid() && brainDepth == SmarterDepth(old(brainDepth), defaultDepth)
    {
      if brainDepth < defaultDepth + 1 {
        brainDepth := brainDepth + 1;
      }
    }
  }
}
