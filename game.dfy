/**
 * The game component of index.js: its state (the history of boards, the
 * displayed step and whose turn it is), the shallow-merging `setState`, the
 * two transitions `handleClick` and `jumpTo`, and the values `update` renders.
 */
module Game {
  import opened Wrappers
  import opened Rules
  import opened View

  /** The number of cells of `s` equal to `c`. */
  function Count(s: seq<Cell>, c: Cell): nat {
    if s == [] then 0 else (if s[0] == c then 1 else 0) + Count(s[1..], c)
  }

  /** The mark placed by the move made from history entry `k`. */
  function MoverAt(k: nat): Mark {
    Mover(k % 2 == 0)
  }

  /** Every mark on `b` is still in place on `b'`. */
  predicate KeepsMarks(b: Board, b': Board) {
    forall j :: 0 <= j < 9 && b[j] != Empty ==> b'[j] == b[j]
  }

  /**
   * The history of a game played by the rules: it starts from the empty board,
   * entry `k` holds (k+1)/2 X's and k/2 O's (so exactly `k` marks), each entry
   * keeps the marks of the one before, and no entry but the last has a winner.
   */
  predicate ValidHistory(h: seq<Board>) {
    && |h| > 0
    && h[0] == EmptyBoard
    && (forall k :: 0 <= k < |h| ==>
          Count(h[k], Filled(X)) == (k + 1) / 2 && Count(h[k], Filled(O)) == k / 2)
    && (forall k :: 0 <= k < |h| - 1 ==> Winner(h[k]) == None && KeepsMarks(h[k], h[k + 1]))
  }

  /** The invariant of the component's state. */
  predicate GameInvariant(history: seq<Board>, stepNumber: nat, xIsNext: bool) {
    stepNumber < |history| && ValidHistory(history) && xIsNext == (stepNumber % 2 == 0)
  }

  /** Writing `c` over cell `i` moves one unit of count from the old value to `c`. */
  lemma {:induction false} CountUpdate(s: seq<Cell>, i: nat, c: Cell, d: Cell)
    requires i < |s|
    ensures Count(s[i := c], d) ==
      Count(s, d) - (if s[i] == d then 1 else 0) + (if c == d then 1 else 0)
    decreases |s|
  {
    if i == 0 {
      assert s[i := c][1..] == s[1..];
    } else {
      assert s[i := c][1..] == s[1..][i - 1 := c];
      CountUpdate(s[1..], i - 1, c, d);
    }
  }

  /** A board holds no more marks than it has cells. */
  lemma {:induction false} MarksFitBoard(s: seq<Cell>)
    ensures Count(s, Filled(X)) + Count(s, Filled(O)) <= |s|
    decreases |s|
  {
    if s != [] {
      MarksFitBoard(s[1..]);
    }
  }

  /** The state built by the constructor satisfies the invariant. */
  lemma InitialStateValid()
    ensures GameInvariant([EmptyBoard], 0, true)
  {
    assert Count(EmptyBoard, Filled(X)) == 0 && Count(EmptyBoard, Filled(O)) == 0;
  }

  /** Cutting a valid history back to its first `n` entries keeps it valid. */
  lemma HistoryPrefixValid(h: seq<Board>, n: nat)
    requires ValidHistory(h) && 0 < n <= |h|
    ensures ValidHistory(h[..n])
  {
  }

  /**
   * Appending the board obtained from the last entry by the next player's move
   * on an empty cell keeps the history valid, provided the last entry has no winner.
   */
  lemma HistoryPushValid(h: seq<Board>, i: Index)
    requires ValidHistory(h)
    requires Winner(h[|h| - 1]) == None && h[|h| - 1][i] == Empty
    ensures ValidHistory(h + [h[|h| - 1][i := Filled(MoverAt(|h| - 1))]])
  {
    var n := |h|;
    var last := h[n - 1];
    var next := last[i := Filled(MoverAt(n - 1))];
    var h' := h + [next];
    assert forall k :: 0 <= k < n ==> h'[k] == h[k];
    forall k | 0 <= k < |h'|
      ensures Count(h'[k], Filled(X)) == (k + 1) / 2 && Count(h'[k], Filled(O)) == k / 2
    {
      if k == n {
        CountUpdate(last, i, Filled(MoverAt(n - 1)), Filled(X));
        CountUpdate(last, i, Filled(MoverAt(n - 1)), Filled(O));
      }
    }
    forall k | 0 <= k < |h'| - 1
      ensures Winner(h'[k]) == None && KeepsMarks(h'[k], h'[k + 1])
    {
      if k == n - 1 {
        assert KeepsMarks(last, next);
      }
    }
  }

  /** A game lasts at most nine moves, so the history never holds more than ten boards. */
  lemma HistoryAtMostTen(h: seq<Board>)
    requires ValidHistory(h)
    ensures |h| <= 10
  {
    var k := |h| - 1;
    MarksFitBoard(h[k]);
  }

  /** The turn can be read off the displayed board: X moves exactly when both marks are equally many. */
  lemma TurnFromBoard(history: seq<Board>, stepNumber: nat, xIsNext: bool)
    requires GameInvariant(history, stepNumber, xIsNext)
    ensures xIsNext <==>
      Count(history[stepNumber], Filled(X)) == Count(history[stepNumber], Filled(O))
  {
  }

  /** A partial new state: the fields present replace the old ones, the rest are kept. */
  datatype StateUpdate = StateUpdate(
    history: Option<seq<Board>>,
    stepNumber: Option<nat>,
    xIsNext: Option<bool>)

  class GameComponent {
    var history: seq<Board>
    var stepNumber: nat
    var xIsNext: bool

    ghost predicate Valid()
      reads this
    {
      GameInvariant(history, stepNumber, xIsNext)
    }

    /** The initial state: a history holding only the empty board, step 0, X to move. */
    constructor ()
      ensures Valid()
      ensures history == [EmptyBoard] && stepNumber == 0 && xIsNext
    {
      history := [EmptyBoard];
      stepNumber := 0;
      xIsNext := true;
      InitialStateValid();
    }

    /** `setState`: a shallow merge of `update` into the state. */
    method SetState(update: StateUpdate)
      modifies this
      ensures history == update.history.GetOr(old(history))
      ensures stepNumber == update.stepNumber.GetOr(old(stepNumber))
      ensures xIsNext == update.xIsNext.GetOr(old(xIsNext))
    {
      history := update.history.GetOr(history);
      stepNumber := update.stepNumber.GetOr(stepNumber);
      xIsNext := update.xIsNext.GetOr(xIsNext);
    }

    /**
     * `handleClick(i)`: a no-op when the displayed board already has a winner or
     * cell `i` is taken; otherwise the history is cut back to the displayed entry,
     * the displayed board with the mover's mark at `i` is appended, the step
     * advances to it and the turn passes.
     */
    method HandleClick(i: nat)
      requires Valid() && i < 9
      modifies this
      ensures Valid()
      ensures var current := old(history[stepNumber]);
        if Winner(current).Some? || current[i] != Empty then
          history == old(history) && stepNumber == old(stepNumber) && xIsNext == old(xIsNext)
        else
          && history == old(history[..stepNumber + 1]) + [current[i := Filled(Mover(old(xIsNext)))]]
          && stepNumber == old(stepNumber) + 1 == |history| - 1
          && xIsNext == !old(xIsNext)
    {
      var hist := history[..stepNumber + 1];
      var current := hist[|hist| - 1];
      var squares := new Cell[9](k requires 0 <= k < 9 => current[k]);
      assert squares[..] == current;
      var winner := CalculateWinner(squares[..]);
      if winner.Some? || squares[i] != Empty {
        return;
      }
      squares[i] := Filled(if xIsNext then X else O);
      assert squares[..] == current[i := Filled(Mover(xIsNext))];
      HistoryPrefixValid(history, stepNumber + 1);
      HistoryPushValid(hist, i);
      SetState(StateUpdate(Some(hist + [squares[..]]), Some(|hist|), Some(!xIsNext)));
    }

    /** `jumpTo(step)`: display history entry `step`; the history itself is kept. */
    method JumpTo(step: nat)
      requires Valid() && step < |history|
      modifies this
      ensures Valid()
      ensures history == old(history) && stepNumber == step && xIsNext == (step % 2 == 0)
    {
      SetState(StateUpdate(None, Some(step), Some(step % 2 == 0)));
    }

    /**
     * The values `update` renders: the displayed board, the status line for its
     * winner and the next player, and one label per history entry.
     */
    method Update() returns (squares: Board, status: string, moves: seq<string>)
      requires stepNumber < |history|
      ensures squares == history[stepNumber]
      ensures status == StatusLine(Winner(squares), xIsNext)
      ensures moves == MoveList(history)
    {
      var current := history[stepNumber];
      var winner := CalculateWinner(current);
      moves := MoveList(history);
      status := StatusLine(winner, xIsNext);
      squares := current;
    }
  }

  /** None of the boards before X's third move in the sample game has a winner. */
  lemma SampleOpeningHasNoWinner()
    ensures Winner([Filled(X), Empty, Empty, Empty, Empty, Empty, Empty, Empty, Empty]) == None
    ensures Winner([Filled(X), Empty, Empty, Empty, Filled(O), Empty, Empty, Empty, Empty]) == None
    ensures Winner([Filled(X), Filled(X), Empty, Empty, Filled(O), Empty, Empty, Empty, Empty]) == None
    ensures Winner([Filled(X), Filled(X), Empty, Filled(O), Filled(O), Empty, Empty, Empty, Empty]) == None
  {
  }

  /** The first two moves of the sample game: X at 0, O at 4. */
  method SampleFirstMoves() returns (game: GameComponent)
    ensures fresh(game) && game.Valid()
    ensures game.stepNumber == 2 && |game.history| == 3
    ensures game.history[2] == [Filled(X), Empty, Empty, Empty, Filled(O), Empty, Empty, Empty, Empty]
  {
    SampleOpeningHasNoWinner();
    game := new GameComponent();
    game.HandleClick(0);
    assert game.stepNumber == 1 && |game.history| == 2;
    assert game.history[1] == [Filled(X), Empty, Empty, Empty, Empty, Empty, Empty, Empty, Empty];
    game.HandleClick(4);
  }

  /** The first four moves of the sample game: then X at 1, O at 3. */
  method SampleOpening() returns (game: GameComponent)
    ensures fresh(game) && game.Valid()
    ensures game.stepNumber == 4 && |game.history| == 5
    ensures game.history[4] == [Filled(X), Filled(X), Empty, Filled(O), Filled(O), Empty, Empty, Empty, Empty]
  {
    SampleOpeningHasNoWinner();
    game := SampleFirstMoves();
    game.HandleClick(1);
    assert game.stepNumber == 3 && |game.history| == 4;
    assert game.history[3] == [Filled(X), Filled(X), Empty, Empty, Filled(O), Empty, Empty, Empty, Empty];
    game.HandleClick(3);
  }

  /** The sample game: X completes the top row with its move at 2, and the status announces it. */
  method TopRowScenario() {
    var game := SampleOpening();
    game.HandleClick(2);
    var top := [Filled(X), Filled(X), Filled(X), Filled(O), Filled(O), Empty, Empty, Empty, Empty];
    assert game.history[5] == top;
    var squares, status, moves := game.Update();
    assert status == "Winner: X";
    game.HandleClick(8);
    assert |game.history| == 6 && game.stepNumber == 5;
  }

  /** Rewinding to the start and playing again discards the rewound entries. */
  method RewindScenario() {
    var game := new GameComponent();
    game.HandleClick(0);
    game.HandleClick(4);
    game.JumpTo(0);
    assert |game.history| == 3;
    assert game.history[game.stepNumber] == EmptyBoard && game.xIsNext;
    game.HandleClick(8);
    assert |game.history| == 2 && game.history[1] == EmptyBoard[8 := Filled(X)];
  }
}
