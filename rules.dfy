/**
 * The board of the game and the win check `calculateWinner` (index.js).
 * The source stores a board as an array of nine values that are `null`,
 * `"X"` or `"O"`; here a cell is `Empty` or `Filled` with a mark.
 */
module Rules {
  import opened Wrappers

  /** A player's mark. */
  datatype Mark = X | O

  /** One square of the board: empty (`null` in the source) or holding a mark. */
  datatype Cell = Empty | Filled(mark: Mark)

  /** A position on the board, numbered row by row from the top left. */
  type Index = i: nat | i < 9

  /** A board is always nine cells long. */
  type Board = b: seq<Cell> | |b| == 9
    witness [Empty, Empty, Empty, Empty, Empty, Empty, Empty, Empty, Empty]

  /** The board at game start, `Array(9).fill(null)`. */
  const EmptyBoard: Board := [Empty, Empty, Empty, Empty, Empty, Empty, Empty, Empty, Empty]

  /** Three positions that win when they hold the same mark. */
  type Line = (Index, Index, Index)

  /** The eight lines in the order the source scans them: rows, columns, diagonals. */
  const Lines: seq<Line> := [
    (0, 1, 2), (3, 4, 5), (6, 7, 8),
    (0, 3, 6), (1, 4, 7), (2, 5, 8),
    (0, 4, 8), (2, 4, 6)
  ]

  /** The string the source stores in a cell for a mark. */
  function MarkText(m: Mark): string {
    match m
    case X => "X"
    case O => "O"
  }

  /** The mark placed by the player to move, the source's `xIsNext ? "X" : "O"`. */
  function Mover(xIsNext: bool): (m: Mark)
    ensures MarkText(m) == (if xIsNext then "X" else "O")
  {
    if xIsNext then X else O
  }

  /** All three cells of `line` hold mark `m`. */
  predicate WonBy(b: Board, line: Line, m: Mark) {
    b[line.0] == Filled(m) && b[line.1] == Filled(m) && b[line.2] == Filled(m)
  }

  /**
   * The loop's test on one line: its first cell is non-empty and equal to the
   * other two. It accepts a line exactly when one mark fills all three cells.
   */
  function LineOwner(b: Board, line: Line): (owner: Option<Mark>)
    ensures owner.Some? ==> WonBy(b, line, owner.value)
    ensures owner.None? ==> forall m :: !WonBy(b, line, m)
  {
    var (p, q, r) := line;
    if b[p] != Empty && b[p] == b[q] && b[p] == b[r] then Some(b[p].mark) else None
  }

  /**
   * The result of the scan started at line `k`: the owner of the first owned
   * line. When it returns nothing, none of the lines from `k` on is filled with
   * one mark; what a returned mark means is `FirstWinFromSome` below.
   */
  function FirstWinFrom(b: Board, k: nat): (winner: Option<Mark>)
    requires k <= |Lines|
    ensures winner.None? ==> forall j, m :: k <= j < |Lines| ==> !WonBy(b, Lines[j], m)
    decreases |Lines| - k
  {
    if k == |Lines| then None
    else if LineOwner(b, Lines[k]).Some? then LineOwner(b, Lines[k])
    else FirstWinFrom(b, k + 1)
  }

  /** The winner of a board, as `calculateWinner` computes it: the scan from the first line. */
  function Winner(b: Board): Option<Mark> {
    FirstWinFrom(b, 0)
  }

  /** `calculateWinner`: the loop over the line table with its early return. */
  method CalculateWinner(squares: Board) returns (winner: Option<Mark>)
    ensures winner == Winner(squares)
  {
    for i := 0 to |Lines|
      invariant Winner(squares) == FirstWinFrom(squares, i)
    {
      var (a, b, c) := Lines[i];
      if squares[a] != Empty && squares[a] == squares[b] && squares[a] == squares[c] {
        return Some(squares[a].mark);
      }
    }
    return None;
  }

  /** The table holds the three rows top to bottom, the three columns left to right, then the two diagonals. */
  lemma LinesInScanOrder()
    ensures |Lines| == 8
    ensures forall r :: 0 <= r < 3 ==> Lines[r] == (3 * r, 3 * r + 1, 3 * r + 2)
    ensures forall c :: 3 <= c < 6 ==> Lines[c] == (c - 3, c, c + 3)
    ensures Lines[6] == (0, 4, 8) && Lines[7] == (2, 4, 6)
  {
  }

  /** The scan from line `k` finds no winner iff none of the lines from `k` on is owned. */
  lemma {:induction false} FirstWinFromNone(b: Board, k: nat)
    requires k <= |Lines|
    ensures FirstWinFrom(b, k) == None <==>
      forall j :: k <= j < |Lines| ==> LineOwner(b, Lines[j]) == None
    decreases |Lines| - k
  {
    if k < |Lines| {
      FirstWinFromNone(b, k + 1);
    }
  }

  /** The scan from line `k` returns `m` iff line `j >= k` is won by `m` and no line in between is owned. */
  lemma {:induction false} FirstWinFromSome(b: Board, k: nat, m: Mark)
    requires k <= |Lines|
    ensures FirstWinFrom(b, k) == Some(m) <==>
      exists j :: k <= j < |Lines| && WonBy(b, Lines[j], m) &&
        forall i :: k <= i < j ==> LineOwner(b, Lines[i]) == None
    decreases |Lines| - k
  {
    if k < |Lines| {
      FirstWinFromSome(b, k + 1, m);
      if FirstWinFrom(b, k) == Some(m) {
        if LineOwner(b, Lines[k]).None? {
          var j :| k + 1 <= j < |Lines| && WonBy(b, Lines[j], m) &&
            forall i :: k + 1 <= i < j ==> LineOwner(b, Lines[i]) == None;
          assert forall i :: k <= i < j ==> LineOwner(b, Lines[i]) == None;
        }
      }
    }
  }

  /**
   * The winner is `m` iff some line is filled with `m` and no line scanned before it
   * (rows, then columns, then diagonals) is filled with any one mark.
   */
  lemma WinnerIsFirstWinningLine(b: Board, m: Mark)
    ensures Winner(b) == Some(m) <==>
      exists j :: 0 <= j < |Lines| && WonBy(b, Lines[j], m) &&
        forall i, m' :: 0 <= i < j ==> !WonBy(b, Lines[i], m')
  {
    FirstWinFromSome(b, 0, m);
    forall i | 0 <= i < |Lines|
      ensures LineOwner(b, Lines[i]) == None <==> forall m' :: !WonBy(b, Lines[i], m')
    {
    }
  }

  /** There is no winner iff no line is filled with a single mark. */
  lemma WinnerNoneIffNoLine(b: Board)
    ensures Winner(b) == None <==>
      forall j, m :: 0 <= j < |Lines| ==> !WonBy(b, Lines[j], m)
  {
    FirstWinFromNone(b, 0);
  }

  /** The board at game start has no winner. */
  lemma EmptyBoardHasNoWinner()
    ensures Winner(EmptyBoard) == None
  {
    WinnerNoneIffNoLine(EmptyBoard);
  }
}
