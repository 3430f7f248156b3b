/** The board component: its own copy of the winner scan, which also
    reports the winning line, and the legality check a human click goes
    through before the new board is handed to the game. */
module BoardView {
  import opened Options
  import opened Grid

  /** `{ winner, line }`, both `null` when nobody has won. */
  datatype WinnerResult = WinnerResult(winner: Option<Player>, line: Option<Line>)

  /** The first complete line in scan order, with its symbol. */
  function CalculateWinner(squares: Grid): (r: WinnerResult)
    ensures r.winner.None? <==> r.line.None?
    ensures r.line.None? <==> forall k :: 0 <= k < |Lines| ==> !Complete(squares, Lines[k])
    ensures r.line.Some? ==>
      exists k :: 0 <= k < |Lines| && Lines[k] == r.line.value && Complete(squares, Lines[k]) &&
        forall j :: 0 <= j < k ==> !Complete(squares, Lines[j])
    ensures r.line.Some? ==>
      r.winner.Some? && forall i: Index :: r.line.value.Contains(i) ==> squares[i] == Mark(r.winner.value)
  {
    match FirstWhere(Lines, (l: Line) => Complete(squares, l))
    case None => WinnerResult(None, None)
    case Some(k) => WinnerResult(Some(squares[Lines[k].a].p), Some(Lines[k]))
  }

  /** The symbol a click writes (`xIsNext ? "X" : "O"`). */
  function Turn(xIsNext: bool): Player {
    if xIsNext then X else O
  }

  /** What a click on `index` hands to `onPlay`, or None when the click is
      ignored. */
  function Click(squares: Grid, xIsNext: bool, disabled: bool, index: Index): (r: Option<Grid>)
    ensures r.None? <==> squares[index] != Empty || CalculateWinner(squares).winner.Some? || disabled
    ensures r.Some? ==>
      r.value[index] == Mark(Turn(xIsNext)) &&
      forall j: Index :: j != index ==> r.value[j] == squares[j]
  {
    if squares[index] != Empty || CalculateWinner(squares).winner.Some? || disabled then None
    else Some(squares[index := Mark(Turn(xIsNext))])
  }

  /** `handleClick`: reject, or copy the squares and write the mover's
      symbol into the copy. */
  method HandleClick(squares: Grid, xIsNext: bool, disabled: bool, index: Index)
    returns (next: Option<Grid>)
    ensures next == Click(squares, xIsNext, disabled, index)
  {
    var result := CalculateWinner(squares);
    if squares[index] != Empty || result.winner.Some? || disabled {
      return None;
    }
    var newSquares := CopyWith(squares, index, Mark(if xIsNext then X else O));
    next := Some(newSquares);
  }

  /** A click that was accepted cannot be repeated on the board it produced,
      whoever moves next and whatever the board's enabled state. */
  lemma SecondClickRejected(squares: Grid, xIsNext: bool, disabled: bool, index: Index,
                            xIsNext': bool, disabled': bool)
    requires Click(squares, xIsNext, disabled, index).Some?
    ensures Click(Click(squares, xIsNext, disabled, index).value, xIsNext', disabled', index).None?
  {
  }
}
