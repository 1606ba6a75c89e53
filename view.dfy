/**
 * The text the game component derives from its state on every render
 * (`update` in index.js): the status line and the labels of the move list.
 * Each text function has a parser beside it that recovers what the text shows,
 * so the lemmas below say that the text shows exactly that information.
 */
module View {
  import opened Wrappers
  import opened Rules
  import Decimal

  /**
   * The status line: the winner if the current board has one, else who moves
   * next. It reads back as exactly that.
   */
  function StatusLine(winner: Option<Mark>, xIsNext: bool): (s: string)
    ensures ParseStatus(s) ==
      Some(if winner.Some? then ShowsWinner(winner.value) else ShowsNext(Mover(xIsNext)))
  {
    match winner
    case Some(w) =>
      var s := "Winner: " + MarkText(w);
      assert s[..8] == "Winner: " && s[8..] == MarkText(w);
      s
    case None =>
      var s := "Next player: " + MarkText(Mover(xIsNext));
      assert s[..8] != "Winner: " by { assert s[0] == 'N'; }
      assert s[..13] == "Next player: " && s[13..] == MarkText(Mover(xIsNext));
      s
  }

  /**
   * The label of the button that jumps to entry `move` of the history: the fixed
   * start label for move 0, and otherwise a fixed prefix followed by the decimal
   * digits of `move`.
   */
  function MoveLabel(move: nat): (s: string)
    ensures (s == "Go to game start") == (move == 0)
    ensures move > 0 ==>
      |s| > 12 && s[..12] == "Go to move #" &&
      Decimal.IsCanonical(s[12..]) && Decimal.Value(s[12..]) == move
  {
    if move == 0 then
      "Go to game start"
    else
      var s := "Go to move #" + Decimal.NatToString(move);
      assert s != "Go to game start" by { assert s[6] == 'm'; }
      assert s[..12] == "Go to move #" && s[12..] == Decimal.NatToString(move);
      s
  }

  /** What a status line tells the player. */
  datatype Shown = ShowsWinner(winner: Mark) | ShowsNext(next: Mark)

  function ParseMark(s: string): Option<Mark> {
    if s == "X" then Some(X) else if s == "O" then Some(O) else None
  }

  /** Reads a status line back; `None` for text that is not one. */
  function ParseStatus(s: string): Option<Shown> {
    if |s| >= 8 && s[..8] == "Winner: " && ParseMark(s[8..]).Some? then
      Some(ShowsWinner(ParseMark(s[8..]).value))
    else if |s| >= 13 && s[..13] == "Next player: " && ParseMark(s[13..]).Some? then
      Some(ShowsNext(ParseMark(s[13..]).value))
    else
      None
  }

  /** Reads a move label back to the history index it jumps to; `None` for other text. */
  function ParseMoveLabel(s: string): Option<nat> {
    if s == "Go to game start" then Some(0)
    else if |s| > 12 && s[..12] == "Go to move #" && Decimal.IsCanonical(s[12..])
      && Decimal.Value(s[12..]) > 0 then
      Some(Decimal.Value(s[12..]))
    else None
  }

  /** Every label leads back to the move it was made for. */
  lemma MoveLabelRoundTrip(move: nat)
    ensures ParseMoveLabel(MoveLabel(move)) == Some(move)
  {
    var s := MoveLabel(move);
    if move > 0 {
      assert s != "Go to game start";
    }
  }

  /** Two different moves never get the same label. */
  lemma MoveLabelsDistinct(m: nat, n: nat)
    requires m != n
    ensures MoveLabel(m) != MoveLabel(n)
  {
    MoveLabelRoundTrip(m);
    MoveLabelRoundTrip(n);
  }

  /**
   * The move list, `history.map(...)`: one label per history entry, and the
   * label at position `move` is the one that reads back as `move`.
   */
  function MoveList<T>(history: seq<T>): (moves: seq<string>)
    ensures |moves| == |history|
    ensures forall move :: 0 <= move < |moves| ==> ParseMoveLabel(moves[move]) == Some(move)
  {
    var moves := seq(|history|, move requires 0 <= move => MoveLabel(move));
    assert forall move :: 0 <= move < |moves| ==> ParseMoveLabel(moves[move]) == Some(move) by {
      forall move | 0 <= move < |moves| {
        MoveLabelRoundTrip(move);
      }
    }
    moves
  }
}
