# Tic-tac-toe: game state, board and computer opponent

This project models the core of a React tic-tac-toe game in Dafny:

- the computer opponent's move selection (`aiImproved.js`). It tries a fixed
  order of rules: take an immediate win, block the opponent's immediate win,
  create a fork, block the opponent's fork, then centre, corner, edge, and
  finally any empty square. Three difficulty levels cut this order short.
- the board component (`Board.tsx`). It has its own winner scan, which also
  reports the winning line, and the check that a click must pass before the
  new board goes to the game.
- the game screen (`Game.tsx`). It holds a round's history of snapshots, the
  move shown, whose turn it is, and the match: scores, ties, rounds played,
  who starts, and auto-reset. It also holds the handlers and effects that
  change these.

Modules:

- `Options` (`options.dfy`): the option type standing for `null` / `undefined`.
- `Grid` (`grid.dfy`): the parts all three source files share. These are the
  symbols, the cells, the nine-square board and the eight lines in scan order.
  They also include the first-match scan, the empty-square filter, the random
  pick and copy-and-write.
- `Engine` (`engine.dfy`): `aiImproved.js`. Each source function is a
  specification function, such as `WinningMove`, `ForkMove`, `BlockFork`,
  `StrategicMove` and `AIMove`. A method with the source's loops is proved
  equal to each, such as `FindWinningMove`, `FindForkMove`,
  `BlockOpponentFork` and `GetAIMove`.
- `BoardView` (`board_view.dfy`): `Board.tsx`.
- `Game` (`game.dfy`): `Game.tsx`. The component's state is the value
  `MatchState`, with one transition function per handler or effect. The
  class `Match` holds the same fields and updates them in place. Each of its
  methods is proved to produce `Transition(old(State()))`.

Randomness is injected:

- `coin: bool` stands for `Math.random() < 0.5`.
- `pick: nat` stands for the random number that chooses among `n`
  candidates; the chosen position is `pick % n`. Lemmas show that every
  candidate is reachable.
- Indexing an empty array (`undefined`) is `None`.

The two timers (the 2-second auto-reset and the 500 ms computer move) and
the draw effect are modelled as discrete transitions.

The draw effect depends only on `isDraw`. React runs it again only when
`isDraw` differs from the value it last ran with, so the state records that
value (`drawSeen`). Running `DrawStep` again on the same board changes
nothing (`DrawStepIdempotent`). Jumping away from a counted draw to a board
that is not drawn, and back, counts the same draw again
(`DrawRecountedAfterJump`).

The auto-reset callback is a closure created by the render that set the
timer, since its effect runs again only when `winner`, `isDraw` or
`autoReset` change. The `handleRestart` it calls reads that render's
scores, round count and starting player. Its updates act on the state
current when it fires. Once the current state's match is over, the
match-over effect navigates to the result page; unmounting the game screen
clears the timer, so the callback never runs. `RoundEndFrom(armed, now,
coin)` models exactly this, and the class method `RoundEndTimer` takes the
captured render as a parameter. Consequences the model proves:

- the winner of a round (or the coin after a draw) becomes the starting
  player, but the round that begins right away is started by the previous
  starting player (`DecisiveRoundStarter`);
- the draw effect runs after the render that set the timer, so a drawn
  round that leaves the match open adds two to `roundsPlayed`
  (`DrawCountedTwice`); with no decisive score the match therefore ends
  early, after a draw in round three or four;
- a draw in round four brings the count to five and ends the match; the
  restart's own test reads the count from before the draw and would let a
  new round start, but the timer is cleared first, so nothing changes
  (`DrawInRoundFourEndsMatch`).

On the board `O . . / . X . / . . O` the hard computer playing X has no
immediate win and no fork. O forks at 2, and no square X can take leaves O
without a fork, so `blockOpponentFork` returns null. The move comes from the
strategic rule: corner 2 or corner 6, depending on the draw
(`Engine.ForkExampleFallsToCorner`).

## Model

| member | source | states |
|---|---|---|
| Grid.Player.Other | src/components/Game.tsx:85 | the computer's symbol is the human's opponent, never the same symbol |
| Grid.FirstWhere | src/components/aiImproved.js:27-36 | the position found passes the test and no earlier position does; None exactly when no position passes |
| Grid.EmptyAmong | src/components/aiImproved.js:81 | an index is kept exactly when it is among the candidates and its square is empty |
| Grid.EmptyAmongAscending | src/components/aiImproved.js:19-23 | filtering an ascending index list keeps it ascending |
| Grid.EmptyIndices | src/components/aiImproved.js:19-23 | contains exactly the empty squares, in ascending order, and is empty exactly on a full board |
| Grid.RandomElement | src/components/aiImproved.js:83 | the random pick is one of the candidates, and `undefined` exactly when there are none |
| Grid.RandomElementReaches | src/components/aiImproved.js:83 | every candidate is drawn for some value of the random number |
| Grid.CopyWith | src/components/aiImproved.js:43-44 | the copy holds the new cell at the written square and the old cells everywhere else |
| Engine.CountOn | src/components/aiImproved.js:28-30 | the number of the line's three squares that hold the given cell; its meaning for threats is stated by Engine.ThreatMeaning |
| Engine.Threat | src/components/aiImproved.js:28-31 | two of the player's marks and one empty square on the line; characterised by Engine.ThreatMeaning |
| Engine.ThreatMeaning | src/components/aiImproved.js:28-31 | a line is a threat exactly when one of its squares is empty and the other two hold the player's mark |
| Engine.EmptyOn | src/components/aiImproved.js:32 | `path.find` returns a square of the line that is empty |
| Engine.WinningMove | src/components/aiImproved.js:26-37 | None exactly when no line holds two of the player's marks and one empty square; otherwise the empty square of the first such line in scan order, which is empty |
| Engine.FindWinningMove | src/components/aiImproved.js:26-37 | the loop with its early return computes WinningMove |
| Engine.ThreatsBefore | src/components/aiImproved.js:45-53 | the counter never exceeds the number of lines scanned |
| Engine.ThreatsBeforeMeaning | src/components/aiImproved.js:45-54 | the counter is positive exactly when some scanned line is a threat, and at least two exactly when two distinct lines are |
| Engine.CountThreats | src/components/aiImproved.js:45-53 | the inner loop's counter equals ThreatsBefore over all eight lines |
| Engine.ForkAt | src/components/aiImproved.js:43-54 | playing the square in a copy leaves at least two threatened lines; proved to be what SimulateFork decides and, by ForkCreatesTwoThreats, two distinct lines |
| Engine.FirstFork | src/components/aiImproved.js:42-58 | the square found is a candidate that creates a fork; None exactly when no candidate does |
| Engine.FirstForkLeast | src/components/aiImproved.js:41-42 | scanning ascending empty squares, no smaller candidate creates a fork |
| Engine.ForkMove | src/components/aiImproved.js:40-59 | the smallest empty square whose simulated move leaves two threats; None exactly when no empty square does |
| Engine.FirstForkStep | src/components/aiImproved.js:42-57 | proof helper, one unfolding of the scan: return the current square if it forks, otherwise continue with the rest |
| Engine.SimulateFork | src/components/aiImproved.js:43-54 | the copy-and-count in the loop body decides ForkAt for that square |
| Engine.FindForkMove | src/components/aiImproved.js:40-59 | the nested loops compute ForkMove |
| Engine.LeavesNoFork | src/components/aiImproved.js:66-68 | after the player takes the square, the opponent's fork search finds nothing; SimulateBlock is proved to decide it |
| Engine.FirstSafe | src/components/aiImproved.js:65-72 | the square found leaves the opponent no fork; None exactly when every candidate leaves one |
| Engine.FirstSafeLeast | src/components/aiImproved.js:64-65 | scanning ascending empty squares, no smaller candidate leaves the opponent without a fork |
| Engine.BlockFork | src/components/aiImproved.js:62-73 | the smallest empty square after which the opponent has no fork; None exactly when there is none |
| Engine.FirstSafeStep | src/components/aiImproved.js:65-71 | proof helper, one unfolding of the block scan |
| Engine.SimulateBlock | src/components/aiImproved.js:66-70 | the copy and the nested fork search decide LeavesNoFork for that square |
| Engine.BlockOpponentFork | src/components/aiImproved.js:62-73 | the loop computes BlockFork |
| Engine.StrategicMove | src/components/aiImproved.js:76-91 | the centre when it is empty; otherwise an empty corner if there is one; otherwise an empty edge; always an empty square; None exactly on a full board |
| Engine.StrategicReachesEveryCorner | src/components/aiImproved.js:80-84 | with the centre taken, every empty corner is chosen for some draw |
| Engine.StrategicReachesEveryEdge | src/components/aiImproved.js:85-89 | with the centre and all corners taken, every empty edge is chosen for some draw |
| Engine.AIMove | src/components/aiImproved.js:94-138 | the chosen square is empty, and there is none exactly when the board is full |
| Engine.GetAIMove | src/components/aiImproved.js:94-138 | the method computes AIMove and keeps the priority order: an own win first, then a block, then on hard an own fork, then a fork block |
| Engine.LineDistinct | src/components/aiImproved.js:7-16 | the three squares of every line are distinct |
| Engine.ThreatCompletes | src/components/aiImproved.js:31-33 | playing the empty square of a threatened line completes it with the player's symbol |
| Engine.WinningMoveCompletes | src/components/aiImproved.js:26-37 | playing the square WinningMove returns completes a line of the player |
| Engine.WinningMoveNotMissed | src/components/aiImproved.js:26-37 | if some empty square completes a line for the player, WinningMove finds a square |
| Engine.ForkCreatesTwoThreats | src/components/aiImproved.js:54-56 | the fork square gives the mover two distinct threatened lines |
| Engine.BlocksOnlyThreat | src/components/aiImproved.js:106-108 | with no own win and exactly one opponent threat, medium and hard play that line's empty square |
| Engine.OnlyThreatFound | src/components/aiImproved.js:26-37 | a player's only threat is the one WinningMove finds |
| Engine.EasyReachesEveryEmptySquare | src/components/aiImproved.js:96-100 | on easy, every empty square is the answer for some random draw |
| Engine.ThreatCountUnfolded | src/components/aiImproved.js:46-53 | the fork counter is the sum, over the eight lines, of whether each line is a threat |
| Engine.WinExampleTakesWin | src/components/aiImproved.js:102-108 | on X X . / O O . / . . . both sides threaten (O would win at 5), and medium and hard X take their own win at 2 |
| Engine.ForkExampleNoForkForX | src/components/aiImproved.js:121-122 | on O . . / . X . / . . O, X has no fork |
| Engine.ForkMoveIs | src/components/aiImproved.js:40-59 | an empty forking square with no smaller one is the one ForkMove returns |
| Engine.ForkExampleForkForO | src/components/aiImproved.js:125 | on that board, O's first fork is square 2 |
| Engine.ForkExampleReply | src/components/aiImproved.js:66-68 | whatever square X takes there, O still has a fork |
| Engine.ForkExampleNoBlock | src/components/aiImproved.js:126-128 | so `blockOpponentFork` finds nothing on that board |
| Engine.HardRuleOrder | src/components/aiImproved.js:120-137 | one unfolding of the hard rule chain, used by the examples: with no immediate win on either side, the rules apply in order: own fork, fork block, strategic move, random square |
| Engine.HardFallsThrough | src/components/aiImproved.js:131-133 | with no win, no own fork and no fork block, hard plays the strategic move |
| Engine.ForkExampleNoWins | src/components/aiImproved.js:103-108 | neither side has an immediate win on the fork example |
| Engine.CornerChoice | src/components/aiImproved.js:80-84 | with the centre and corners 0 and 8 taken and corner 2 free, the strategic rule answers 2 or 6 |
| Engine.ForkExampleStrategic | src/components/aiImproved.js:76-91 | on the fork example the strategic rule answers corner 2 or 6 |
| Engine.ForkExampleFallsToCorner | src/components/aiImproved.js:120-133 | on the fork example the hard computer playing X answers corner 2 or 6 |
| BoardView.CalculateWinner | src/components/Board.tsx:17-35 | winner and line are both null or both set; null exactly when no line is complete; otherwise the first complete line in scan order, and each of its squares holds the winner |
| BoardView.Turn | src/components/Board.tsx:49 | the symbol a click writes, X exactly when `xIsNext`; BoardView.Click states where it goes |
| BoardView.Click | src/components/Board.tsx:45-51 | the click is ignored exactly when the square is taken, the board is won or the board is disabled; otherwise only the clicked square changes, to the mover's symbol |
| BoardView.HandleClick | src/components/Board.tsx:45-51 | the handler's copy-and-write computes Click |
| BoardView.SecondClickRejected | src/components/Board.tsx:46 | a second click on the same square is ignored, whoever is to move |
| Game.WinnerFrom | src/components/Game.tsx:28-34 | the loop over the lines from position k, returning at the first complete one; characterised by NoWinnerFrom and WinnerFromLine |
| Game.CalculateWinner | src/components/Game.tsx:17-35 | `calculateWinner`; characterised by NoWinnerMeaning, WinnerLine and WinnerFromFirstLine, and equal to the board's scan by WinnersAgree |
| Game.NoWinnerFrom | src/components/Game.tsx:28-34 | the scan from a line on finds nothing exactly when none of the remaining lines is complete |
| Game.WinnerFromLine | src/components/Game.tsx:28-33 | the scan stops at a complete line holding the winner, with no complete line before it |
| Game.NoWinnerMeaning | src/components/Game.tsx:17-35 | there is no winner exactly when no line is complete |
| Game.WinnerFromFirstLine | src/components/Game.tsx:28-32 | a winner is read from the first complete line, and every square of it holds the winner's symbol |
| Game.WinnerLine | src/components/Game.tsx:28-32 | exhibits the line the winner comes from |
| Game.GetRandomMove | src/components/Game.tsx:37-44 | null exactly on a full board; otherwise an empty square |
| Game.GetRandomMoveReaches | src/components/Game.tsx:42-43 | every empty square is the answer for some random draw |
| Game.IsDraw | src/components/Game.tsx:88 | no winner and every square filled; OutcomeCases relates it to the winner |
| Game.OutcomeCases | src/components/Game.tsx:87-88 | a board is never both won and drawn; a board neither won nor drawn has an empty square |
| Game.WinnersAgree | src/components/Board.tsx:17-35 | the board's winner scan and the game's `calculateWinner` give the same symbol on every board |
| Game.Scores.Inc | src/components/Game.tsx:99-102 | adds one to the winner's score and leaves the other score alone |
| Game.MatchState.Disabled | src/components/Game.tsx:268-274 | the board is disabled once the round is won or drawn, and on the computer's turn; HumanClick and TurnsExclusive state its effect |
| Game.MatchState.ComputerToMove | src/components/Game.tsx:157-161 | the computer's effect condition: against the computer, no winner, no draw, and the turn is not the human's; ComputerStep and ComputerMoveLegal state its effect |
| Game.MatchState.MatchOver | src/components/Game.tsx:194-198 | three round wins for either symbol or five rounds; the same test guards `handleRestart` (line 115); MatchOverMeaning restates it over X and O |
| Game.MatchState.MatchVerdict | src/components/Game.tsx:199-204 | the human's symbol exactly when it has more round wins, the computer's symbol exactly when that has more, and a tie exactly on equal scores |
| Game.Initial | src/components/Game.tsx:63-83 | the chosen symbol and opponent, one empty board at move 0, the coin's starting player, X to move exactly when X starts, no scores or ties, round 1, auto-reset on, match not over |
| Game.Play | src/components/Game.tsx:91-104 | keeps the snapshots up to the one shown, appends the new board and shows it, and passes the turn; nothing else but the scores changes |
| Game.PlayScores | src/components/Game.tsx:97-103 | a move adds one to the score of the symbol that wins the new board, and changes no score when nobody wins it |
| Game.Jump | src/components/Game.tsx:106-109 | shows the chosen snapshot, X to move exactly on even moves; every other field is unchanged |
| Game.JumpIdempotent | src/components/Game.tsx:106-109 | jumping twice to the same move is jumping once |
| Game.JumpThenPlayDiscards | src/components/Game.tsx:92 | after a jump back, the next move discards every later snapshot |
| Game.JumpParity | src/components/Game.tsx:106-109 | jumping to an earlier move and back to the move just played keeps the turn exactly when the turn before that move agreed with the parity rule |
| Game.OStartedTurns | src/components/Game.tsx:95 | the turn pattern of a round O started: X to move exactly after an odd number of moves |
| Game.RestartOStarts | src/components/Game.tsx:119-123 | a new round O starts has that turn pattern |
| Game.OStartedRoundParity | src/components/Game.tsx:95-108 | in a round O started, moves keep the pattern, and a jump to any snapshot gives the turn to the wrong player |
| Game.OpeningJumpBack | src/components/Game.tsx:106-109 | after O opens a round, jumping back to the start hands the empty board to X |
| Game.Restart | src/components/Game.tsx:114-125 | a no-op once the match is over; otherwise an empty board, the starting player to move, and one more round; every other field unchanged |
| Game.DrawStep | src/components/Game.tsx:185-190 | when `isDraw` differs from the value the effect last ran with, the effect records it, and a drawn board adds one tie and one round; otherwise nothing changes |
| Game.DrawStepIdempotent | src/components/Game.tsx:185-190 | running the draw effect again on the same board changes nothing |
| Game.DrawRecountedAfterJump | src/components/Game.tsx:106-109 | jumping away from a counted draw to a board that is not drawn, and back, counts the same draw a second time |
| Game.RoundEndFrom | src/components/Game.tsx:128-153 | the callback acts only if the render that set it had a finished round with auto-reset on and the current match is not over (otherwise the screen has been left and the timer cleared); the winner, or the coin after a draw, becomes the starting player; unless that render's match was over, the round restarts on the current state, started by that render's starting player; no other field changes |
| Game.RoundEnd | src/components/Game.tsx:133-144 | with nothing changed since the timer was set, the callback is `handleRestart` followed by the new starting player, and nothing once the match is over |
| Game.DrawCountedTwice | src/components/Game.tsx:185-190 | a drawn round that leaves the match open adds two to `roundsPlayed` (the draw effect and then the restart), one tie and no score, and empties the board |
| Game.DrawInRoundFourEndsMatch | src/components/Game.tsx:114-124 | a draw in round four ends the match although the restart's stale test would pass; the callback then changes nothing |
| Game.DecisiveRoundStarter | src/components/Game.tsx:135-143 | after a won round the winner becomes the starting player, but the new round is started by the previous starter |
| Game.ComputerStep | src/components/Game.tsx:156-182 | the computer moves only on its turn in an open round |
| Game.ComputerMoveLegal | src/components/Game.tsx:163-170 | on its turn the computer writes its symbol on an empty square of the board shown, and it is then the human's turn |
| Game.WinningMoveWins | src/components/aiImproved.js:103-104 | on a board nobody has won, playing the square WinningMove finds makes the mover the winner |
| Game.NewWinnerIsMover | src/components/Game.tsx:97-98 | when a move on an unwon board yields a winner, the winner is the mover |
| Game.NewLineThroughMove | src/components/Game.tsx:28-33 | a line that a move completes passes through the square moved to |
| Game.ComputerTakesWin | src/components/Game.tsx:165-169 | with a line to complete, the computer wins the round and its score rises by one |
| Game.HumanClick | src/components/Game.tsx:264-275 | a click on a disabled board or a taken square changes nothing; otherwise the mover's symbol goes on that square and the move is played |
| Game.TurnsExclusive | src/components/Game.tsx:268-274 | against the computer, a human click and the computer's move never both take effect from one state |
| Game.ToggleAutoReset | src/components/Game.tsx:278 | flips auto-reset and nothing else |
| Game.MatchOverMeaning | src/components/Game.tsx:194-198 | the match is over exactly when a symbol has three round wins or five rounds have been counted |
| Game.VerdictExample | src/components/Game.tsx:194-204 | after four rounds at three wins to one, the match is over and X wins it |
| Game.Match.constructor | src/components/Game.tsx:63-83 | the fields start as Initial says |
| Game.Match.HandlePlay | src/components/Game.tsx:91-104 | the fields become Play of the old state |
| Game.Match.JumpTo | src/components/Game.tsx:106-109 | the fields become Jump of the old state |
| Game.Match.HandleRestart | src/components/Game.tsx:114-125 | the fields become Restart of the old state |
| Game.Match.DrawEffect | src/components/Game.tsx:185-190 | the fields become DrawStep of the old state |
| Game.Match.RoundEndTimer | src/components/Game.tsx:133-146 | the fields become RoundEndFrom of the captured render and the old state |
| Game.Match.ComputerMoveTimer | src/components/Game.tsx:156-182 | the fields become ComputerStep of the old state |
| Game.Match.ClickCell | src/components/Board.tsx:45-51 | the fields become HumanClick of the old state |
| Game.Match.PauseResume | src/components/Game.tsx:276-281 | the fields become ToggleAutoReset of the old state |

## Left out

- Rendering is not modelled: markup, styling, the border classes of `Board.tsx`, the winning-cell highlight, the status text and the move list.
- Routing is not modelled: the redirect when there is no location state, the log-out button, and the navigation to the result page with its payload (`winnerName` and the player names). The match verdict is modelled; its delivery is not.
- The start page and result page, and the other components, are not part of this model.
- Timers are not modelled as time. The two `setTimeout` delays are left out.
- Game.DrawStep, Game.RoundEndFrom and Game.ComputerStep: each effect is applied as one transition when the model calls it. The model does not schedule the effects after each render. It does not capture a timer cleared by a change of its effect's dependencies before it fires.
- The distribution of `Math.random` is not modelled. Only the choice it makes is a parameter, so every outcome is covered but its probability is not.
- `console.log` calls are left out.
- The `0` that `aiImproved.js` accepts as an empty square is left out. The boards the game builds hold only `null`, `"X"` and `"O"`.
- `getRandomMove` in `Game.tsx` is modelled, but the component never calls it.
- Game.Jump: requires a move inside the history. The move list offers only existing moves. It allows the move already shown, whose button Game.tsx:229 disables; jumping there changes at most `xIsNext`.
- Game.DrawInRoundFourEndsMatch, Game.DrawCountedTwice, Game.RoundEndFrom: the navigation to the result page and the unmount are not modelled as such; they appear only as the callback doing nothing once the current match is over. The other transitions still apply to a finished match, though the game screen is gone by then.
- Game.ComputerStep: passes `coin` as false to the engine. The computer always plays on hard, which never reads the coin.
- Game.ComputerStep: the `move !== null` check in the computer effect compares the move with null. The model writes that check as the option's None case. On the computer's turn the board has an empty square, so a move is always found (`ComputerMoveLegal`).
