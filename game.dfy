/** The game screen: outcome of the current board, the round (history of
    snapshots, the move being shown, whose turn it is) and the match
    (scores, ties, rounds, who starts), with the transitions the click
    handlers and the effects perform. The state is a value `MatchState`
    with one function per transition; the class `Match` holds the same
    fields and updates them in place. */
module Game {
  import opened Options
  import opened Grid
  import Engine
  import BoardView

  // ---------------------------------------------------------------------
  // Outcome of a board

  /** The symbol of the first complete line among `Lines[k..]`, scanning
      rows, columns and diagonals in order. */
  function WinnerFrom(squares: Grid, k: nat): Option<Player>
    requires k <= |Lines|
    decreases |Lines| - k
  {
    if k == |Lines| then None
    else if Complete(squares, Lines[k]) then Some(squares[Lines[k].a].p)
    else WinnerFrom(squares, k + 1)
  }

  /** `calculateWinner`: the symbol of the first complete line, or None. */
  function CalculateWinner(squares: Grid): Option<Player> {
    WinnerFrom(squares, 0)
  }

  /** The scan from line `k` on finds nothing exactly when none of those
      lines is complete. */
  lemma {:induction false} NoWinnerFrom(squares: Grid, k: nat)
    requires k <= |Lines|
    ensures WinnerFrom(squares, k).None? <==> forall j :: k <= j < |Lines| ==> !Complete(squares, Lines[j])
    decreases |Lines| - k
  {
    if k < |Lines| {
      NoWinnerFrom(squares, k + 1);
    }
  }

  /** The line, from `k` on, that the scan stops at. */
  lemma {:induction false} WinnerFromLine(squares: Grid, k: nat) returns (j: nat)
    requires k <= |Lines| && WinnerFrom(squares, k).Some?
    ensures k <= j < |Lines| && Complete(squares, Lines[j])
    ensures squares[Lines[j].a] == Mark(WinnerFrom(squares, k).value)
    ensures forall i :: k <= i < j ==> !Complete(squares, Lines[i])
    decreases |Lines| - k
  {
    if Complete(squares, Lines[k]) {
      j := k;
    } else {
      j := WinnerFromLine(squares, k + 1);
    }
  }

  /** There is no winner exactly when no line is complete. */
  lemma NoWinnerMeaning(squares: Grid)
    ensures CalculateWinner(squares).None? <==> forall k :: 0 <= k < |Lines| ==> !Complete(squares, Lines[k])
  {
    NoWinnerFrom(squares, 0);
  }

  /** A winner is read from the first complete line, and every square of
      that line holds the winner's symbol. */
  lemma WinnerFromFirstLine(squares: Grid)
    ensures CalculateWinner(squares).Some? ==>
      exists k :: 0 <= k < |Lines| && Complete(squares, Lines[k]) &&
        (forall i: Index :: Lines[k].Contains(i) ==> squares[i] == Mark(CalculateWinner(squares).value)) &&
        forall j :: 0 <= j < k ==> !Complete(squares, Lines[j])
  {
    if CalculateWinner(squares).Some? {
      var k := WinnerLine(squares);
      assert forall i: Index :: Lines[k].Contains(i) ==> squares[i] == Mark(CalculateWinner(squares).value);
    }
  }

  /** The index of the line the winner is read from. */
  lemma WinnerLine(g: Grid) returns (k: nat)
    requires CalculateWinner(g).Some?
    ensures k < |Lines| && Complete(g, Lines[k]) && g[Lines[k].a] == Mark(CalculateWinner(g).value)
    ensures forall j :: 0 <= j < k ==> !Complete(g, Lines[j])
  {
    k := WinnerFromLine(g, 0);
  }

  /** A random empty square, or None on a full board (`getRandomMove`). */
  function GetRandomMove(squares: Grid, pick: nat): (r: Option<Index>)
    ensures r.None? <==> Full(squares)
    ensures r.Some? ==> squares[r.value] == Empty
  {
    RandomElement(EmptyIndices(squares), pick)
  }

  /** Every empty square is a possible random move. */
  lemma GetRandomMoveReaches(squares: Grid, i: Index)
    requires squares[i] == Empty
    ensures exists pick: nat :: GetRandomMove(squares, pick) == Some(i)
  {
    RandomElementReaches(EmptyIndices(squares), i);
    var pick: nat :| RandomElement(EmptyIndices(squares), pick) == Some(i);
    assert GetRandomMove(squares, pick) == Some(i);
  }

  /** No winner and every square filled. */
  predicate IsDraw(squares: Grid) {
    CalculateWinner(squares).None? && Full(squares)
  }

  /** A board is won, drawn, or still has an empty square, and it is never
      both won and drawn. */
  lemma OutcomeCases(squares: Grid)
    ensures !(CalculateWinner(squares).Some? && IsDraw(squares))
    ensures CalculateWinner(squares).None? && !IsDraw(squares) ==> exists i: Index :: squares[i] == Empty
  {
  }

  /** The two copies of the winner scan agree on every board. */
  lemma WinnersAgree(squares: Grid)
    ensures BoardView.CalculateWinner(squares).winner == CalculateWinner(squares)
  {
    var a := BoardView.CalculateWinner(squares);
    NoWinnerMeaning(squares);
    if CalculateWinner(squares).Some? {
      var k := WinnerLine(squares);
      var k' :| 0 <= k' < |Lines| && Lines[k'] == a.line.value && Complete(squares, Lines[k']) &&
        forall j :: 0 <= j < k' ==> !Complete(squares, Lines[j]);
      assert k == k';
      assert Lines[k].Contains(Lines[k].a);
    }
  }

  // ---------------------------------------------------------------------
  // Scores and the match verdict

  /** `Record<"X" | "O", number>`. */
  datatype Scores = Scores(x: nat, o: nat) {
    function Of(p: Player): nat {
      if p == X then x else o
    }

    /** `{ ...prev, [p]: prev[p] + 1 }`. */
    function Inc(p: Player): (s: Scores)
      ensures s.Of(p) == Of(p) + 1 && s.Of(p.Other()) == Of(p.Other())
    {
      if p == X then Scores(x + 1, o) else Scores(x, o + 1)
    }
  }

  /** The symbol with strictly more round wins, or a tie. */
  datatype Verdict = Won(p: Player) | Tie

  // ---------------------------------------------------------------------
  // Round and match state

  /** The component's state. `drawSeen` is the value of `isDraw` that the
      draw effect last ran with: React runs that effect again only when
      `isDraw` differs from it. */
  datatype MatchState = MatchState(
    playerSymbol: Player,
    vsComputer: bool,
    startingPlayer: Player,
    history: seq<Grid>,
    currentMove: nat,
    xIsNext: bool,
    scores: Scores,
    tieCount: nat,
    roundsPlayed: nat,
    autoReset: bool,
    drawSeen: bool)
  {
    /** The history is never empty and starts from the empty board, the
        move shown is one of its snapshots, and rounds are counted from 1. */
    predicate Valid() {
      |history| > 0 && history[0] == EmptyGrid && currentMove < |history| && roundsPlayed >= 1
    }

    function ComputerSymbol(): Player {
      playerSymbol.Other()
    }

    function CurrentSquares(): Grid
      requires Valid()
    {
      history[currentMove]
    }

    function Winner(): Option<Player>
      requires Valid()
    {
      CalculateWinner(CurrentSquares())
    }

    predicate Drawn()
      requires Valid()
    {
      IsDraw(CurrentSquares())
    }

    /** The board ignores clicks once the round is decided, and during the
        computer's turn. */
    predicate Disabled()
      requires Valid()
    {
      Winner().Some? || Drawn() ||
      (vsComputer && ((playerSymbol == X && !xIsNext) || (playerSymbol == O && xIsNext)))
    }

    /** It is the computer's turn and the round is still open. */
    predicate ComputerToMove()
      requires Valid()
    {
      vsComputer && Winner().None? && !Drawn() && xIsNext != (playerSymbol == X)
    }

    /** Three round wins for either side, or five rounds. */
    predicate MatchOver() {
      scores.Of(playerSymbol) >= 3 || scores.Of(ComputerSymbol()) >= 3 || roundsPlayed >= 5
    }

    /** The overall result reported once the match is over. */
    function MatchVerdict(): (v: Verdict)
      ensures v == Won(playerSymbol) <==> scores.Of(playerSymbol) > scores.Of(ComputerSymbol())
      ensures v == Won(ComputerSymbol()) <==> scores.Of(ComputerSymbol()) > scores.Of(playerSymbol)
      ensures v == Tie <==> scores.x == scores.o
    {
      if scores.Of(playerSymbol) > scores.Of(ComputerSymbol()) then Won(playerSymbol)
      else if scores.Of(ComputerSymbol()) > scores.Of(playerSymbol) then Won(ComputerSymbol())
      else Tie
    }
  }

  /** The state on loading the game screen; `coin` is the random draw that
      picks the first starting player. */
  function Initial(playerSymbol: Player, vsComputer: bool, coin: bool): (s: MatchState)
    ensures s.Valid() && s.CurrentSquares() == EmptyGrid
    ensures s.xIsNext <==> s.startingPlayer == X
    ensures s.scores.Of(X) == 0 && s.scores.Of(O) == 0 && s.tieCount == 0 && s.roundsPlayed == 1
    ensures !s.MatchOver() && s.autoReset && !s.drawSeen
    ensures s.playerSymbol == playerSymbol && s.vsComputer == vsComputer
    ensures s.history == [EmptyGrid] && s.currentMove == 0 && s.startingPlayer == (if coin then X else O)
  {
    var starter := if coin then X else O;
    MatchState(playerSymbol, vsComputer, starter, [EmptyGrid], 0, starter == X,
               Scores(0, 0), 0, 1, true, false)
  }

  /** `handlePlay`: drop the snapshots after the one shown, append the new
      board and show it, pass the turn, and score a winner of the new
      board. */
  function Play(s: MatchState, next: Grid): (t: MatchState)
    requires s.Valid()
    ensures t.Valid()
    ensures |t.history| == s.currentMove + 2 && t.currentMove == |t.history| - 1
    ensures t.CurrentSquares() == next
    ensures forall i :: 0 <= i <= s.currentMove ==> t.history[i] == s.history[i]
    ensures t.xIsNext == !s.xIsNext
    ensures t.tieCount == s.tieCount && t.roundsPlayed == s.roundsPlayed
    ensures t.startingPlayer == s.startingPlayer && t.autoReset == s.autoReset && t.drawSeen == s.drawSeen
    ensures t.playerSymbol == s.playerSymbol && t.vsComputer == s.vsComputer
  {
    var nextHistory := s.history[..s.currentMove + 1] + [next];
    var w := CalculateWinner(next);
    s.(history := nextHistory, currentMove := |nextHistory| - 1, xIsNext := !s.xIsNext,
       scores := if w.Some? then s.scores.Inc(w.value) else s.scores)
  }

  /** A move adds exactly one to the score of the symbol that wins the new
      board, and changes no score when the new board has no winner. */
  lemma PlayScores(s: MatchState, next: Grid, p: Player)
    requires s.Valid()
    ensures CalculateWinner(next) == Some(p) ==>
      Play(s, next).scores.Of(p) == s.scores.Of(p) + 1 &&
      Play(s, next).scores.Of(p.Other()) == s.scores.Of(p.Other())
    ensures CalculateWinner(next).None? ==> Play(s, next).scores == s.scores
  {
  }

  /** `jumpTo`: show snapshot `move`; the turn is fixed by the parity of
      `move`, with X on even moves. */
  function Jump(s: MatchState, move: nat): (t: MatchState)
    requires s.Valid() && move < |s.history|
    ensures t.Valid() && t.history == s.history && t.currentMove == move
    ensures t.xIsNext <==> move % 2 == 0
    ensures t.scores == s.scores && t.tieCount == s.tieCount && t.roundsPlayed == s.roundsPlayed
    ensures t.startingPlayer == s.startingPlayer && t.autoReset == s.autoReset && t.drawSeen == s.drawSeen
    ensures t.(currentMove := s.currentMove, xIsNext := s.xIsNext) == s
  {
    s.(currentMove := move, xIsNext := move % 2 == 0)
  }

  /** Jumping to a move twice is the same as jumping once. */
  lemma JumpIdempotent(s: MatchState, move: nat)
    requires s.Valid() && move < |s.history|
    ensures Jump(Jump(s, move), move) == Jump(s, move)
  {
  }

  /** After a jump back, the next move discards every later snapshot. */
  lemma JumpThenPlayDiscards(s: MatchState, move: nat, next: Grid)
    requires s.Valid() && move < |s.history|
    ensures Play(Jump(s, move), next).history == s.history[..move + 1] + [next]
  {
  }

  /** The turn after a jump ignores who started the round: jumping to an
      earlier move and back to the move just played keeps the turn exactly
      when the turn before that move agreed with the parity rule. */
  lemma JumpParity(s: MatchState, next: Grid, j: nat)
    requires s.Valid() && j <= s.currentMove
    ensures var t := Play(s, next);
      Jump(Jump(t, j), t.currentMove).xIsNext == t.xIsNext <==> s.xIsNext == (s.currentMove % 2 == 0)
  {
  }

  /** The turns of a round O started: X is to move exactly after an odd
      number of moves. */
  predicate OStartedTurns(s: MatchState) {
    s.xIsNext <==> s.currentMove % 2 == 1
  }

  /** A new round O starts has O's turns. */
  lemma RestartOStarts(s: MatchState)
    requires s.Valid() && !s.MatchOver() && s.startingPlayer == O
    ensures OStartedTurns(Restart(s))
  {
  }

  /** In a round O started, moves keep O's turns, and a jump to any snapshot
      gives the turn to the wrong player. */
  lemma OStartedRoundParity(s: MatchState, next: Grid, m: nat)
    requires s.Valid() && OStartedTurns(s) && m <= s.currentMove + 1
    ensures OStartedTurns(Play(s, next))
    ensures !OStartedTurns(Jump(Play(s, next), m))
  {
  }

  /** After O opens a round, jumping back to the start gives the empty board
      to X. */
  lemma OpeningJumpBack(s: MatchState, next: Grid)
    requires s.Valid() && s.currentMove == 0 && !s.xIsNext
    ensures Jump(Play(s, next), 0).CurrentSquares() == EmptyGrid
    ensures Jump(Play(s, next), 0).xIsNext
  {
  }

  /** `handleRestart`: ignored once the match is over; otherwise a new round
      on the empty board, started by `startingPlayer`. */
  function Restart(s: MatchState): (t: MatchState)
    requires s.Valid()
    ensures t.Valid()
    ensures s.MatchOver() ==> t == s
    ensures !s.MatchOver() ==>
      t.history == [EmptyGrid] && t.currentMove == 0 &&
      (t.xIsNext <==> s.startingPlayer == X) && t.roundsPlayed == s.roundsPlayed + 1
    ensures t.scores == s.scores && t.tieCount == s.tieCount && t.startingPlayer == s.startingPlayer
    ensures t.(history := s.history, currentMove := s.currentMove, xIsNext := s.xIsNext,
               roundsPlayed := s.roundsPlayed) == s
  {
    if s.MatchOver() then s
    else s.(history := [EmptyGrid], currentMove := 0, xIsNext := s.startingPlayer == X,
            roundsPlayed := s.roundsPlayed + 1)
  }

  /** The draw effect, run when `isDraw` differs from the value it last ran
      with: on a drawn board it adds a tie and a round. */
  function DrawStep(s: MatchState): (t: MatchState)
    requires s.Valid()
    ensures t.Valid() && t.drawSeen == s.Drawn()
    ensures s.Drawn() && !s.drawSeen ==>
      t.tieCount == s.tieCount + 1 && t.roundsPlayed == s.roundsPlayed + 1
    ensures !(s.Drawn() && !s.drawSeen) ==>
      t.tieCount == s.tieCount && t.roundsPlayed == s.roundsPlayed
    ensures t.(tieCount := s.tieCount, roundsPlayed := s.roundsPlayed, drawSeen := s.drawSeen) == s
  {
    if s.Drawn() == s.drawSeen then s
    else if s.Drawn() then
      s.(tieCount := s.tieCount + 1, roundsPlayed := s.roundsPlayed + 1, drawSeen := true)
    else s.(drawSeen := false)
  }

  /** Running the draw effect again on the same board changes nothing. */
  lemma DrawStepIdempotent(s: MatchState)
    requires s.Valid()
    ensures DrawStep(DrawStep(s)) == DrawStep(s)
  {
    assert DrawStep(s).CurrentSquares() == s.CurrentSquares();
  }

  /** Jumping from a drawn board whose draw was counted to a board that is
      not drawn, and back, counts the same draw a second time. */
  lemma DrawRecountedAfterJump(s: MatchState, m: nat)
    requires s.Valid() && s.Drawn() && s.drawSeen
    requires m < |s.history| && !IsDraw(s.history[m])
    ensures var back := DrawStep(Jump(DrawStep(Jump(s, m)), s.currentMove));
      back.CurrentSquares() == s.CurrentSquares() &&
      back.tieCount == s.tieCount + 1 && back.roundsPlayed == s.roundsPlayed + 1
  {
    var away := DrawStep(Jump(s, m));
    assert !away.drawSeen;
    var back := Jump(away, s.currentMove);
    assert back.CurrentSquares() == s.CurrentSquares();
  }

  /** The auto-reset timer's callback. It is a closure over the render
      `armed` that set the timer, since the effect runs again only when
      `winner`, `isDraw` or `autoReset` change. It tests that render's
      outcome, and the `handleRestart` it calls reads that render's scores,
      round count and starting player; its updates apply to the current
      state `now`. The winner, or the `coin` draw after a draw, becomes the
      next starting player; the new round is started by the starting player
      the closure saw. Once the current match is over the callback never
      runs: the match-over effect has left the game screen, and the
      unmount's cleanup cleared the timer. */
  function RoundEndFrom(armed: MatchState, now: MatchState, coin: bool): (t: MatchState)
    requires armed.Valid() && now.Valid()
    ensures t.Valid()
    ensures !((armed.Winner().Some? || armed.Drawn()) && armed.autoReset) ==> t == now
    ensures now.MatchOver() ==> t == now
    ensures armed.autoReset && armed.Winner().Some? && !now.MatchOver() ==>
      t.startingPlayer == armed.Winner().value
    ensures armed.autoReset && armed.Drawn() && !now.MatchOver() ==>
      t.startingPlayer == (if coin then X else O)
    ensures (armed.Winner().Some? || armed.Drawn()) && armed.autoReset && !now.MatchOver() &&
            armed.MatchOver() ==>
      t == now.(startingPlayer := t.startingPlayer)
    ensures (armed.Winner().Some? || armed.Drawn()) && armed.autoReset && !now.MatchOver() &&
            !armed.MatchOver() ==>
      t.history == [EmptyGrid] && t.currentMove == 0 && (t.xIsNext <==> armed.startingPlayer == X) &&
      t.roundsPlayed == now.roundsPlayed + 1
    ensures t.(history := now.history, currentMove := now.currentMove, xIsNext := now.xIsNext,
               roundsPlayed := now.roundsPlayed, startingPlayer := now.startingPlayer) == now
  {
    var w := armed.Winner();
    if !((w.Some? || armed.Drawn()) && armed.autoReset) || now.MatchOver() then now
    else
      var starter := if w.Some? then w.value else if coin then X else O;
      if armed.MatchOver() then now.(startingPlayer := starter)
      else now.(history := [EmptyGrid], currentMove := 0, xIsNext := armed.startingPlayer == X,
                roundsPlayed := now.roundsPlayed + 1, startingPlayer := starter)
  }

  /** The callback when nothing changed between setting the timer and its
      firing, as after a won round: unless the match is over,
      `handleRestart` followed by the update of the starting player. */
  function RoundEnd(s: MatchState, coin: bool): (t: MatchState)
    requires s.Valid()
    ensures t.Valid()
    ensures !((s.Winner().Some? || s.Drawn()) && s.autoReset) || s.MatchOver() ==> t == s
    ensures s.autoReset && s.Winner().Some? && !s.MatchOver() ==> t.startingPlayer == s.Winner().value
    ensures s.autoReset && s.Drawn() && !s.MatchOver() ==> t.startingPlayer == (if coin then X else O)
    ensures (s.Winner().Some? || s.Drawn()) && s.autoReset ==>
      t == Restart(s).(startingPlayer := t.startingPlayer)
  {
    RoundEndFrom(s, s, coin)
  }

  /** A drawn round that leaves the match open counts twice towards
      `roundsPlayed`: once in the draw effect, which runs right after the
      render that sets the timer, and once more in the restart. */
  lemma DrawCountedTwice(s: MatchState, coin: bool)
    requires s.Valid() && s.Drawn() && !s.drawSeen && s.autoReset && !DrawStep(s).MatchOver()
    ensures RoundEndFrom(s, DrawStep(s), coin).roundsPlayed == s.roundsPlayed + 2
    ensures RoundEndFrom(s, DrawStep(s), coin).tieCount == s.tieCount + 1
    ensures RoundEndFrom(s, DrawStep(s), coin).scores == s.scores
    ensures RoundEndFrom(s, DrawStep(s), coin).CurrentSquares() == EmptyGrid
  {
  }

  /** A draw in round four brings the count to five and ends the match, so
      no new round starts, although the restart's own test, which reads the
      count from before the draw, would have let it through. */
  lemma DrawInRoundFourEndsMatch(s: MatchState, coin: bool)
    requires s.Valid() && s.Drawn() && !s.drawSeen && s.autoReset && s.roundsPlayed == 4
    requires s.scores.x < 3 && s.scores.o < 3
    ensures !s.MatchOver() && DrawStep(s).MatchOver()
    ensures RoundEndFrom(s, DrawStep(s), coin) == DrawStep(s)
  {
  }

  /** After a decisive round the winner is the next starting player, but the
      new round itself is started by the previous starting player. */
  lemma DecisiveRoundStarter(s: MatchState, coin: bool)
    requires s.Valid() && s.autoReset && s.Winner().Some? && !s.MatchOver()
    ensures RoundEnd(s, coin).startingPlayer == s.Winner().value
    ensures RoundEnd(s, coin).xIsNext <==> s.startingPlayer == X
    ensures RoundEnd(s, coin).CurrentSquares() == EmptyGrid
  {
  }

  /** The computer-move effect: on its turn the computer plays the hard
      move on a copy of the board shown and hands it to `handlePlay`. */
  function ComputerStep(s: MatchState, pick: nat): (t: MatchState)
    requires s.Valid()
    ensures t.Valid()
    ensures !s.ComputerToMove() ==> t == s
  {
    if s.ComputerToMove() then
      var squares := s.CurrentSquares();
      match Engine.AIMove(squares, s.ComputerSymbol(), s.playerSymbol, Engine.Hard, false, pick)
      case None => s
      case Some(m) => Play(s, squares[m := Mark(s.ComputerSymbol())])
    else s
  }

  /** On its turn the computer always moves: it writes its symbol on one
      empty square of the board shown, and passes the turn. */
  lemma ComputerMoveLegal(s: MatchState, pick: nat)
    requires s.Valid() && s.ComputerToMove()
    ensures exists m: Index :: (s.CurrentSquares()[m] == Empty &&
      ComputerStep(s, pick) == Play(s, s.CurrentSquares()[m := Mark(s.ComputerSymbol())]))
    ensures ComputerStep(s, pick).xIsNext == (s.playerSymbol == X)
  {
    var squares := s.CurrentSquares();
    var r := Engine.AIMove(squares, s.ComputerSymbol(), s.playerSymbol, Engine.Hard, false, pick);
    assert r.Some?;
    var m := r.value;
    assert squares[m] == Empty;
  }

  /** On a board nobody has won yet, playing the square WinningMove finds
      makes the mover the winner. */
  lemma WinningMoveWins(g: Grid, p: Player)
    requires CalculateWinner(g).None? && Engine.WinningMove(g, p).Some?
    ensures CalculateWinner(g[Engine.WinningMove(g, p).value := Mark(p)]) == Some(p)
  {
    var m := Engine.WinningMove(g, p).value;
    var h := g[m := Mark(p)];
    Engine.WinningMoveCompletes(g, p);
    var k0 :| 0 <= k0 < |Lines| && Complete(h, Lines[k0]);
    NoWinnerMeaning(h);
    assert CalculateWinner(h).Some?;
    NewWinnerIsMover(g, m, p);
  }

  /** If a move on a board nobody has won produces a winner, the winner is
      the mover. */
  lemma NewWinnerIsMover(g: Grid, m: Index, p: Player)
    requires CalculateWinner(g).None? && CalculateWinner(g[m := Mark(p)]).Some?
    ensures CalculateWinner(g[m := Mark(p)]) == Some(p)
  {
    var h := g[m := Mark(p)];
    var k := WinnerLine(h);
    NoWinnerMeaning(g);
    NewLineThroughMove(g, m, Mark(p), Lines[k]);
  }

  /** A line that writing square `m` completes passes through `m`. */
  lemma NewLineThroughMove(g: Grid, m: Index, c: Cell, l: Line)
    requires !Complete(g, l) && Complete(g[m := c], l)
    ensures l.Contains(m)
  {
  }

  /** With a line to complete, the computer wins the round and scores. */
  lemma ComputerTakesWin(s: MatchState, pick: nat)
    requires s.Valid() && s.ComputerToMove()
    requires Engine.WinningMove(s.CurrentSquares(), s.ComputerSymbol()).Some?
    ensures ComputerStep(s, pick).Winner() == Some(s.ComputerSymbol())
    ensures ComputerStep(s, pick).scores.Of(s.ComputerSymbol()) == s.scores.Of(s.ComputerSymbol()) + 1
  {
    var g := s.CurrentSquares();
    var c := s.ComputerSymbol();
    var m := Engine.WinningMove(g, c).value;
    assert Engine.AIMove(g, c, s.playerSymbol, Engine.Hard, false, pick) == Some(m);
    var h := g[m := Mark(c)];
    assert ComputerStep(s, pick) == Play(s, h);
    WinningMoveWins(g, c);
    PlayScores(s, h, c);
  }

  /** A human click on square `index`, checked by the board and handed to
      `handlePlay`. */
  function HumanClick(s: MatchState, index: Index): (t: MatchState)
    requires s.Valid()
    ensures t.Valid()
    ensures s.Disabled() || s.CurrentSquares()[index] != Empty ==> t == s
    ensures !s.Disabled() && s.CurrentSquares()[index] == Empty ==>
      t == Play(s, s.CurrentSquares()[index := Mark(BoardView.Turn(s.xIsNext))])
  {
    WinnersAgree(s.CurrentSquares());
    match BoardView.Click(s.CurrentSquares(), s.xIsNext, s.Disabled(), index)
    case None => s
    case Some(next) => Play(s, next)
  }

  /** Against the computer, a human click and the computer's move never
      both apply to the same state. */
  lemma TurnsExclusive(s: MatchState, index: Index, pick: nat)
    requires s.Valid() && s.vsComputer
    ensures HumanClick(s, index) == s || ComputerStep(s, pick) == s
  {
  }

  /** The Pause / Resume button. */
  function ToggleAutoReset(s: MatchState): (t: MatchState)
    ensures t.autoReset == !s.autoReset
    ensures t.(autoReset := s.autoReset) == s
  {
    s.(autoReset := !s.autoReset)
  }

  /** The match is over exactly when a symbol has three round wins or five
      rounds have been counted, whichever side the human plays. */
  lemma MatchOverMeaning(s: MatchState)
    ensures s.MatchOver() <==> s.scores.x >= 3 || s.scores.o >= 3 || s.roundsPlayed >= 5
  {
  }

  /** Three wins against one after four rounds ends the match for X. */
  lemma VerdictExample(s: MatchState)
    requires s.scores == Scores(3, 1) && s.roundsPlayed == 4
    ensures s.MatchOver() && s.MatchVerdict() == Won(X)
  {
  }

  // ---------------------------------------------------------------------
  // The component's state, updated in place

  class Match {
    const playerSymbol: Player
    const vsComputer: bool
    var startingPlayer: Player
    var history: seq<Grid>
    var currentMove: nat
    var xIsNext: bool
    var scores: Scores
    var tieCount: nat
    var roundsPlayed: nat
    var autoReset: bool
    var drawSeen: bool

    function State(): MatchState
      reads this
    {
      MatchState(playerSymbol, vsComputer, startingPlayer, history, currentMove, xIsNext,
                 scores, tieCount, roundsPlayed, autoReset, drawSeen)
    }

    constructor (playerSymbol: Player, vsComputer: bool, coin: bool)
      ensures State() == Initial(playerSymbol, vsComputer, coin)
    {
      this.playerSymbol := playerSymbol;
      this.vsComputer := vsComputer;
      var initial := if coin then X else O;
      startingPlayer := initial;
      history := [EmptyGrid];
      currentMove := 0;
      xIsNext := initial == X;
      scores := Scores(0, 0);
      tieCount := 0;
      roundsPlayed := 1;
      autoReset := true;
      drawSeen := false;
    }

    method HandlePlay(nextSquares: Grid)
      requires State().Valid()
      modifies this
      ensures State() == Play(old(State()), nextSquares)
    {
      ghost var before := State();
      var nextHistory := history[..currentMove + 1] + [nextSquares];
      history := nextHistory;
      currentMove := |nextHistory| - 1;
      xIsNext := !xIsNext;
      var newWinner := CalculateWinner(nextSquares);
      if newWinner.Some? {
        scores := scores.Inc(newWinner.value);
      }
      assert State() == before.(history := nextHistory, currentMove := |nextHistory| - 1, xIsNext := !before.xIsNext,
       scores := if newWinner.Some? then before.scores.Inc(newWinner.value) else before.scores);
    }

    method JumpTo(move: nat)
      requires State().Valid() && move < |history|
      modifies this
      ensures State() == Jump(old(State()), move)
    {
      currentMove := move;
      xIsNext := move % 2 == 0;
    }

    method HandleRestart()
      requires State().Valid()
      modifies this
      ensures State() == Restart(old(State()))
    {
      if scores.Of(playerSymbol) >= 3 || scores.Of(playerSymbol.Other()) >= 3 || roundsPlayed >= 5 {
        return;
      }
      history := [EmptyGrid];
      currentMove := 0;
      xIsNext := startingPlayer == X;
      roundsPlayed := roundsPlayed + 1;
    }

    method DrawEffect()
      requires State().Valid()
      modifies this
      ensures State() == DrawStep(old(State()))
    {
      ghost var before := State();
      ghost var after := DrawStep(before);
      var isDraw := IsDraw(history[currentMove]);
      if isDraw != drawSeen {
        drawSeen := isDraw;
        if isDraw {
          tieCount := tieCount + 1;
          roundsPlayed := roundsPlayed + 1;
        }
      }
      assert State() == after;
    }

    /** The auto-reset timer's callback; `armed` holds the values its
        closure captured from the render that set the timer. */
    method RoundEndTimer(armed: MatchState, coin: bool)
      requires armed.Valid() && State().Valid()
      modifies this
      ensures State() == RoundEndFrom(armed, old(State()), coin)
    {
      var squares := armed.history[armed.currentMove];
      var winner := CalculateWinner(squares);
      if !((winner.Some? || IsDraw(squares)) && armed.autoReset) {
        return;
      }
      if scores.Of(playerSymbol) >= 3 || scores.Of(playerSymbol.Other()) >= 3 || roundsPlayed >= 5 {
        // the match-over effect has left the screen; the unmount cleared the timer
        return;
      }
      var next := if winner.Some? then winner.value else if coin then X else O;
      var over := armed.scores.Of(armed.playerSymbol) >= 3 ||
        armed.scores.Of(armed.playerSymbol.Other()) >= 3 || armed.roundsPlayed >= 5;
      if !over {
        history := [EmptyGrid];
        currentMove := 0;
        xIsNext := armed.startingPlayer == X;
        roundsPlayed := roundsPlayed + 1;
      }
      startingPlayer := next;
    }

    method ComputerMoveTimer(pick: nat)
      requires State().Valid()
      modifies this
      ensures State() == ComputerStep(old(State()), pick)
    {
      var squares := history[currentMove];
      var winner := CalculateWinner(squares);
      if !(vsComputer && winner.None? && !IsDraw(squares) && xIsNext != (playerSymbol == X)) {
        return;
      }
      ghost var before := State();
      assert before.ComputerToMove() && squares == before.CurrentSquares();
      var computerSymbol := playerSymbol.Other();
      var move := Engine.GetAIMove(squares, computerSymbol, playerSymbol, Engine.Hard, false, pick);
      if move.Some? {
        var newSquares := CopyWith(squares, move.value, Mark(computerSymbol));
        HandlePlay(newSquares);
        assert State() == Play(before, squares[move.value := Mark(before.ComputerSymbol())]);
      }
    }

    method ClickCell(index: Index)
      requires State().Valid()
      modifies this
      ensures State() == HumanClick(old(State()), index)
    {
      var next := BoardView.HandleClick(history[currentMove], xIsNext, State().Disabled(), index);
      if next.Some? {
        HandlePlay(next.value);
      }
    }

    /** The Pause / Resume button's click handler. */
    method PauseResume()
      modifies this
      ensures State() == ToggleAutoReset(old(State()))
    {
      autoReset := !autoReset;
    }
  }
}
