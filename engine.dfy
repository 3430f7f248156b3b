/** The computer opponent's move selection: a fixed order of rules (win,
    block, fork, block a fork, centre / corner / edge, any empty square),
    each a bounded scan over the eight lines. Random choices are injected:
    `coin` is `Math.random() < 0.5` and `pick` stands for the random number
    that chooses among equally good squares. */
module Engine {
  import opened Options
  import opened Grid

  datatype Difficulty = Easy | Medium | Hard

  /** How many of the three squares of `l` hold `c`
      (`marks.filter(m => m === c).length`). */
  function CountOn(g: Grid, l: Line, c: Cell): nat {
    (if g[l.a] == c then 1 else 0) + (if g[l.b] == c then 1 else 0) + (if g[l.c] == c then 1 else 0)
  }

  /** Two of `p`'s marks and one empty square on `l`. */
  predicate Threat(g: Grid, l: Line, p: Player) {
    CountOn(g, l, Mark(p)) == 2 && CountOn(g, l, Empty) == 1
  }

  /** A threat is a line whose squares are one empty square and two of
      `p`'s marks. */
  lemma ThreatMeaning(g: Grid, l: Line, p: Player)
    ensures Threat(g, l, p) <==>
      (g[l.a] == Empty && g[l.b] == Mark(p) && g[l.c] == Mark(p)) ||
      (g[l.a] == Mark(p) && g[l.b] == Empty && g[l.c] == Mark(p)) ||
      (g[l.a] == Mark(p) && g[l.b] == Mark(p) && g[l.c] == Empty)
  {
  }

  function ThreatTest(g: Grid, p: Player): Line -> bool {
    (l: Line) => Threat(g, l, p)
  }

  /** The first empty square of `l` (`path.find(...)`). */
  function EmptyOn(g: Grid, l: Line): (i: Index)
    requires CountOn(g, l, Empty) >= 1
    ensures l.Contains(i) && g[i] == Empty
  {
    if g[l.a] == Empty then l.a else if g[l.b] == Empty then l.b else l.c
  }

  /** What `findWinningMove(board, p)` returns: the empty square of the first
      line, in scan order, that `p` completes by playing there; None if no
      line holds two of `p` and one empty square. */
  function WinningMove(g: Grid, p: Player): (r: Option<Index>)
    ensures r.None? <==> forall k :: 0 <= k < |Lines| ==> !Threat(g, Lines[k], p)
    ensures r.Some? ==> g[r.value] == Empty
    ensures r.Some? ==>
      exists k :: 0 <= k < |Lines| && Threat(g, Lines[k], p) && r.value == EmptyOn(g, Lines[k]) &&
        forall j :: 0 <= j < k ==> !Threat(g, Lines[j], p)
  {
    match FirstWhere(Lines, ThreatTest(g, p))
    case None => None
    case Some(k) => Some(EmptyOn(g, Lines[k]))
  }

  /** `findWinningMove`: scan the lines, return at the first threat. */
  method FindWinningMove(board: Grid, player: Player) returns (r: Option<Index>)
    ensures r == WinningMove(board, player)
  {
    var k := 0;
    while k < |Lines|
      invariant 0 <= k <= |Lines|
      invariant forall j :: 0 <= j < k ==> !ThreatTest(board, player)(Lines[j])
    {
      var path := Lines[k];
      var countPlayer := CountOn(board, path, Mark(player));
      var countEmpty := CountOn(board, path, Empty);
      if countPlayer == 2 && countEmpty == 1 {
        FirstWhereIs(Lines, ThreatTest(board, player), k);
        return Some(EmptyOn(board, path));
      }
      k := k + 1;
    }
    return None;
  }

  /** The number of lines before position `k` on which `p` threatens to win
      (the counter `winningMoves`). */
  function ThreatsBefore(g: Grid, p: Player, k: nat): (n: nat)
    requires k <= |Lines|
    ensures n <= k
  {
    if k == 0 then 0
    else ThreatsBefore(g, p, k - 1) + (if Threat(g, Lines[k - 1], p) then 1 else 0)
  }

  /** The counter is positive iff some line threatens, and at least two iff
      two distinct lines do. */
  lemma {:induction false} ThreatsBeforeMeaning(g: Grid, p: Player, k: nat)
    requires k <= |Lines|
    ensures ThreatsBefore(g, p, k) > 0 <==> exists j :: 0 <= j < k && Threat(g, Lines[j], p)
    ensures ThreatsBefore(g, p, k) >= 2 <==>
      exists j1, j2 :: 0 <= j1 < j2 < k && Threat(g, Lines[j1], p) && Threat(g, Lines[j2], p)
  {
    if k > 0 {
      ThreatsBeforeMeaning(g, p, k - 1);
      var before := ThreatsBefore(g, p, k - 1);
      var here := Threat(g, Lines[k - 1], p);
      if here && before > 0 {
        var j1 :| 0 <= j1 < k - 1 && Threat(g, Lines[j1], p);
        assert 0 <= j1 < k - 1 < k && Threat(g, Lines[j1], p) && Threat(g, Lines[k - 1], p);
      }
      if exists j1, j2 :: 0 <= j1 < j2 < k && Threat(g, Lines[j1], p) && Threat(g, Lines[j2], p) {
        var j1, j2 :| 0 <= j1 < j2 < k && Threat(g, Lines[j1], p) && Threat(g, Lines[j2], p);
        if j2 == k - 1 {
          assert before > 0;
        }
      }
      if here {
        assert Threat(g, Lines[k - 1], p);
      }
    }
  }

  /** The inner loop of `findForkMove`: count the lines on which `player`
      threatens to win. */
  method CountThreats(board: Grid, player: Player) returns (winningMoves: nat)
    ensures winningMoves == ThreatsBefore(board, player, |Lines|)
  {
    winningMoves := 0;
    var k := 0;
    while k < |Lines|
      invariant 0 <= k <= |Lines|
      invariant winningMoves == ThreatsBefore(board, player, k)
    {
      var path := Lines[k];
      if CountOn(board, path, Mark(player)) == 2 && CountOn(board, path, Empty) == 1 {
        winningMoves := winningMoves + 1;
      }
      k := k + 1;
    }
  }

  /** Playing `p` on `i` leaves at least two lines on which `p` threatens
      to win (the simulation in `findForkMove`). */
  predicate ForkAt(g: Grid, i: Index, p: Player) {
    ThreatsBefore(g[i := Mark(p)], p, |Lines|) >= 2
  }

  /** The first of `cells` on which `p` creates a fork. */
  function FirstFork(g: Grid, p: Player, cells: seq<Index>): (r: Option<Index>)
    ensures r.Some? ==> r.value in cells && ForkAt(g, r.value, p)
    ensures r.None? <==> forall c :: c in cells ==> !ForkAt(g, c, p)
  {
    if |cells| == 0 then None
    else if ForkAt(g, cells[0], p) then Some(cells[0])
    else FirstFork(g, p, cells[1..])
  }

  /** Over an ascending list, the first fork is also the smallest. */
  lemma {:induction false} FirstForkLeast(g: Grid, p: Player, cells: seq<Index>)
    requires Ascending(cells) && FirstFork(g, p, cells).Some?
    ensures forall c :: c in cells && c < FirstFork(g, p, cells).value ==> !ForkAt(g, c, p)
  {
    if !ForkAt(g, cells[0], p) {
      FirstForkLeast(g, p, cells[1..]);
      forall c | c in cells && c < FirstFork(g, p, cells).value ensures !ForkAt(g, c, p) {
        if c != cells[0] {
          assert c in cells[1..];
        }
      }
    } else {
      forall c | c in cells ensures cells[0] <= c {
        var k :| 0 <= k < |cells| && cells[k] == c;
      }
    }
  }

  /** What `findForkMove(board, p)` returns: the smallest empty square on
      which `p` creates a fork, or None if there is none. */
  function ForkMove(g: Grid, p: Player): (r: Option<Index>)
    ensures r.Some? ==> g[r.value] == Empty && ForkAt(g, r.value, p)
    ensures r.Some? ==>
      forall i: Index {:trigger ForkAt(g, i, p)} :: i < r.value && g[i] == Empty ==> !ForkAt(g, i, p)
    ensures r.None? <==> forall i: Index {:trigger ForkAt(g, i, p)} :: g[i] == Empty ==> !ForkAt(g, i, p)
  {
    var r := FirstFork(g, p, EmptyIndices(g));
    if r.Some? then FirstForkLeast(g, p, EmptyIndices(g)); r else r
  }

  /** One step of the scan FirstFork performs. */
  lemma FirstForkStep(g: Grid, p: Player, cells: seq<Index>, j: nat)
    requires j < |cells|
    ensures FirstFork(g, p, cells[j..]) ==
      if ForkAt(g, cells[j], p) then Some(cells[j]) else FirstFork(g, p, cells[j + 1..])
  {
    assert cells[j..][1..] == cells[j + 1..];
  }

  /** The body of `findForkMove`'s loop: simulate `player` on `idx` in a
      copy of the board and count the lines it then threatens. */
  method SimulateFork(board: Grid, idx: Index, player: Player) returns (fork: bool)
    ensures fork == ForkAt(board, idx, player)
  {
    var boardCopy := CopyWith(board, idx, Mark(player));
    var winningMoves := CountThreats(boardCopy, player);
    fork := winningMoves >= 2;
  }

  /** `findForkMove`: for each empty square, simulate the move on a copy of
      the board and count the lines the mover then threatens. */
  method FindForkMove(board: Grid, player: Player) returns (r: Option<Index>)
    ensures r == ForkMove(board, player)
  {
    var emptyIndices := EmptyIndices(board);
    var j := 0;
    while j < |emptyIndices|
      invariant 0 <= j <= |emptyIndices|
      invariant FirstFork(board, player, emptyIndices) == FirstFork(board, player, emptyIndices[j..])
    {
      var idx := emptyIndices[j];
      var fork := SimulateFork(board, idx, player);
      FirstForkStep(board, player, emptyIndices, j);
      if fork {
        return Some(idx);
      }
      j := j + 1;
    }
    return None;
  }

  /** Playing `me` on `i` leaves `opp` no fork (ForkMove of the resulting
      board is None). */
  predicate LeavesNoFork(g: Grid, i: Index, me: Player, opp: Player) {
    var h := g[i := Mark(me)];
    FirstFork(h, opp, EmptyIndices(h)).None?
  }

  /** The first of `cells` after which `opp` has no fork. */
  function FirstSafe(g: Grid, me: Player, opp: Player, cells: seq<Index>): (r: Option<Index>)
    ensures r.Some? ==> r.value in cells && LeavesNoFork(g, r.value, me, opp)
    ensures r.None? <==> forall c :: c in cells ==> !LeavesNoFork(g, c, me, opp)
  {
    if |cells| == 0 then None
    else if LeavesNoFork(g, cells[0], me, opp) then Some(cells[0])
    else FirstSafe(g, me, opp, cells[1..])
  }

  /** Over an ascending list, the first safe square is also the smallest. */
  lemma {:induction false} FirstSafeLeast(g: Grid, me: Player, opp: Player, cells: seq<Index>)
    requires Ascending(cells) && FirstSafe(g, me, opp, cells).Some?
    ensures forall c :: c in cells && c < FirstSafe(g, me, opp, cells).value ==> !LeavesNoFork(g, c, me, opp)
  {
    if !LeavesNoFork(g, cells[0], me, opp) {
      FirstSafeLeast(g, me, opp, cells[1..]);
      forall c | c in cells && c < FirstSafe(g, me, opp, cells).value ensures !LeavesNoFork(g, c, me, opp) {
        if c != cells[0] {
          assert c in cells[1..];
        }
      }
    } else {
      forall c | c in cells ensures cells[0] <= c {
        var k :| 0 <= k < |cells| && cells[k] == c;
      }
    }
  }

  /** What `blockOpponentFork(board, me, opp)` returns: the smallest empty
      square after which `opp` has no fork, or None if every empty square
      leaves `opp` one. */
  function BlockFork(g: Grid, me: Player, opp: Player): (r: Option<Index>)
    ensures r.Some? ==> g[r.value] == Empty && LeavesNoFork(g, r.value, me, opp)
    ensures r.Some? ==>
      forall i: Index {:trigger LeavesNoFork(g, i, me, opp)} ::
        i < r.value && g[i] == Empty ==> !LeavesNoFork(g, i, me, opp)
    ensures r.None? <==>
      forall i: Index {:trigger LeavesNoFork(g, i, me, opp)} :: g[i] == Empty ==> !LeavesNoFork(g, i, me, opp)
  {
    var r := FirstSafe(g, me, opp, EmptyIndices(g));
    if r.Some? then FirstSafeLeast(g, me, opp, EmptyIndices(g)); r else r
  }

  /** One step of the scan FirstSafe performs. */
  lemma FirstSafeStep(g: Grid, me: Player, opp: Player, cells: seq<Index>, j: nat)
    requires j < |cells|
    ensures FirstSafe(g, me, opp, cells[j..]) ==
      if LeavesNoFork(g, cells[j], me, opp) then Some(cells[j]) else FirstSafe(g, me, opp, cells[j + 1..])
  {
    assert cells[j..][1..] == cells[j + 1..];
  }

  /** The body of `blockOpponentFork`'s loop: simulate `player` on `idx` in
      a copy of the board and ask whether `opponent` still has a fork. */
  method SimulateBlock(board: Grid, idx: Index, player: Player, opponent: Player) returns (safe: bool)
    ensures safe == LeavesNoFork(board, idx, player, opponent)
  {
    var boardCopy := CopyWith(board, idx, Mark(player));
    var fork := FindForkMove(boardCopy, opponent);
    safe := fork.None?;
  }

  /** `blockOpponentFork`: for each empty square, simulate `player`'s move
      on a copy and ask whether `opponent` still has a fork. */
  method BlockOpponentFork(board: Grid, player: Player, opponent: Player) returns (r: Option<Index>)
    ensures r == BlockFork(board, player, opponent)
  {
    var emptyIndices := EmptyIndices(board);
    var j := 0;
    while j < |emptyIndices|
      invariant 0 <= j <= |emptyIndices|
      invariant FirstSafe(board, player, opponent, emptyIndices) ==
        FirstSafe(board, player, opponent, emptyIndices[j..])
    {
      var idx := emptyIndices[j];
      var safe := SimulateBlock(board, idx, player, opponent);
      FirstSafeStep(board, player, opponent, emptyIndices, j);
      if safe {
        return Some(idx);
      }
      j := j + 1;
    }
    return None;
  }

  const Corners: seq<Index> := [0, 2, 6, 8]
  const Edges: seq<Index> := [1, 3, 5, 7]

  /** `pickStrategicMove`: the centre if it is empty, else a random empty
      corner, else a random empty edge; None only on a full board. */
  function StrategicMove(g: Grid, pick: nat): (r: Option<Index>)
    ensures g[4] == Empty ==> r == Some(4)
    ensures r.Some? ==> g[r.value] == Empty
    ensures g[4] != Empty && (exists c :: c in Corners && g[c] == Empty) ==> r.Some? && r.value in Corners
    ensures g[4] != Empty && (forall c :: c in Corners ==> g[c] != Empty) ==> r.None? || r.value in Edges
    ensures r.None? <==> Full(g)
  {
    if g[4] == Empty then Some(4)
    else
      var emptyCorners := EmptyAmong(g, Corners);
      if |emptyCorners| > 0 then RandomElement(emptyCorners, pick)
      else
        var emptyEdges := EmptyAmong(g, Edges);
        assert |emptyEdges| == 0 ==> Full(g) by {
          if |emptyEdges| == 0 {
            forall i: Index ensures g[i] != Empty {
              assert i == 4 || i in Corners || i in Edges;
              if i in Corners { assert i !in emptyCorners; }
              if i in Edges { assert i !in emptyEdges; }
            }
          }
        }
        RandomElement(emptyEdges, pick)
  }

  /** With the centre taken, every empty corner is the strategic move for
      some draw. */
  lemma StrategicReachesEveryCorner(g: Grid, c: Index)
    requires g[4] != Empty && c in Corners && g[c] == Empty
    ensures exists pick: nat :: StrategicMove(g, pick) == Some(c)
  {
    var candidates := EmptyAmong(g, Corners);
    RandomElementReaches(candidates, c);
    var pick: nat :| RandomElement(candidates, pick) == Some(c);
    assert StrategicMove(g, pick) == Some(c);
  }

  /** With the centre and every corner taken, every empty edge is the
      strategic move for some draw. */
  lemma StrategicReachesEveryEdge(g: Grid, e: Index)
    requires g[4] != Empty && (forall c :: c in Corners ==> g[c] != Empty)
    requires e in Edges && g[e] == Empty
    ensures exists pick: nat :: StrategicMove(g, pick) == Some(e)
  {
    var candidates := EmptyAmong(g, Edges);
    RandomElementReaches(candidates, e);
    var pick: nat :| RandomElement(candidates, pick) == Some(e);
    assert StrategicMove(g, pick) == Some(e);
  }

  /** What `getAIMove` returns for the given random draws. */
  function AIMove(g: Grid, ai: Player, human: Player, difficulty: Difficulty, coin: bool, pick: nat)
    : (r: Option<Index>)
    ensures r.None? <==> Full(g)
    ensures r.Some? ==> g[r.value] == Empty
  {
    if difficulty == Easy then RandomElement(EmptyIndices(g), pick)
    else if WinningMove(g, ai).Some? then WinningMove(g, ai)
    else if WinningMove(g, human).Some? then WinningMove(g, human)
    else if difficulty == Medium then
      if coin && StrategicMove(g, pick).Some? then StrategicMove(g, pick)
      else RandomElement(EmptyIndices(g), pick)
    else if ForkMove(g, ai).Some? then ForkMove(g, ai)
    else if ForkMove(g, human).Some? && BlockFork(g, ai, human).Some? then BlockFork(g, ai, human)
    else if StrategicMove(g, pick).Some? then StrategicMove(g, pick)
    else RandomElement(EmptyIndices(g), pick)
  }

  /** `getAIMove`: try the rules in order, reassigning `move`, and return at
      the first that yields a square. */
  method GetAIMove(board: Grid, aiPlayer: Player, humanPlayer: Player, difficulty: Difficulty,
                   coin: bool, pick: nat)
    returns (move: Option<Index>)
    ensures move == AIMove(board, aiPlayer, humanPlayer, difficulty, coin, pick)
    ensures move.None? <==> Full(board)
    ensures move.Some? ==> board[move.value] == Empty
    ensures difficulty != Easy && WinningMove(board, aiPlayer).Some? ==>
      move == WinningMove(board, aiPlayer)
    ensures difficulty != Easy && WinningMove(board, aiPlayer).None? &&
            WinningMove(board, humanPlayer).Some? ==>
      move == WinningMove(board, humanPlayer)
    ensures difficulty == Hard && WinningMove(board, aiPlayer).None? &&
            WinningMove(board, humanPlayer).None? && ForkMove(board, aiPlayer).Some? ==>
      move == ForkMove(board, aiPlayer)
    ensures difficulty == Hard && WinningMove(board, aiPlayer).None? &&
            WinningMove(board, humanPlayer).None? && ForkMove(board, aiPlayer).None? &&
            ForkMove(board, humanPlayer).Some? && BlockFork(board, aiPlayer, humanPlayer).Some? ==>
      move == BlockFork(board, aiPlayer, humanPlayer)
  {
    if difficulty == Easy {
      var empty := EmptyIndices(board);
      return RandomElement(empty, pick);
    }
    move := FindWinningMove(board, aiPlayer);
    if move.Some? { return; }
    move := FindWinningMove(board, humanPlayer);
    if move.Some? { return; }
    if difficulty == Medium {
      if coin {
        move := StrategicMove(board, pick);
        if move.Some? { return; }
      }
      var empty := EmptyIndices(board);
      return RandomElement(empty, pick);
    }
    move := FindForkMove(board, aiPlayer);
    if move.Some? { return; }
    move := FindForkMove(board, humanPlayer);
    if move.Some? {
      var blockMove := BlockOpponentFork(board, aiPlayer, humanPlayer);
      if blockMove.Some? { return blockMove; }
    }
    move := StrategicMove(board, pick);
    if move.Some? { return; }
    var empty := EmptyIndices(board);
    return RandomElement(empty, pick);
  }

  /** The three squares of every line are distinct. */
  lemma LineDistinct(k: nat)
    requires k < |Lines|
    ensures Lines[k].a != Lines[k].b && Lines[k].a != Lines[k].c && Lines[k].b != Lines[k].c
  {
  }

  /** Playing the empty square of a threatened line completes it. */
  lemma ThreatCompletes(g: Grid, l: Line, p: Player)
    requires l.a != l.b && l.a != l.c && l.b != l.c && Threat(g, l, p)
    ensures var h := g[EmptyOn(g, l) := Mark(p)]; Complete(h, l) && h[l.a] == Mark(p)
  {
    var h := g[EmptyOn(g, l) := Mark(p)];
    if g[l.a] == Empty {
      assert g[l.b] == Mark(p) && g[l.c] == Mark(p);
    } else if g[l.b] == Empty {
      assert g[l.a] == Mark(p) && g[l.c] == Mark(p);
    } else {
      assert g[l.a] == Mark(p) && g[l.b] == Mark(p);
    }
  }

  /** Playing the square that WinningMove returns completes a line of `p`. */
  lemma WinningMoveCompletes(g: Grid, p: Player)
    requires WinningMove(g, p).Some?
    ensures var h := g[WinningMove(g, p).value := Mark(p)];
      exists k :: 0 <= k < |Lines| && Complete(h, Lines[k]) && h[Lines[k].a] == Mark(p)
  {
    var k :| 0 <= k < |Lines| && Threat(g, Lines[k], p) &&
      WinningMove(g, p).value == EmptyOn(g, Lines[k]);
    LineDistinct(k);
    ThreatCompletes(g, Lines[k], p);
  }

  /** WinningMove never misses an immediate win: if playing `p` on an empty
      square completes a line through it, WinningMove finds some winning
      square. */
  lemma WinningMoveNotMissed(g: Grid, p: Player, i: Index, k: nat)
    requires k < |Lines| && Lines[k].Contains(i) && g[i] == Empty
    requires Complete(g[i := Mark(p)], Lines[k])
    ensures WinningMove(g, p).Some?
  {
    LineDistinct(k);
    assert Threat(g, Lines[k], p);
  }

  /** The square ForkMove returns gives the mover two distinct lines that
      each already hold two of its marks and an empty square. */
  lemma ForkCreatesTwoThreats(g: Grid, p: Player)
    requires ForkMove(g, p).Some?
    ensures var h := g[ForkMove(g, p).value := Mark(p)];
      exists j1, j2 :: 0 <= j1 < j2 < |Lines| && Threat(h, Lines[j1], p) && Threat(h, Lines[j2], p)
  {
    ThreatsBeforeMeaning(g[ForkMove(g, p).value := Mark(p)], p, |Lines|);
  }

  /** If the opponent has exactly one line one move from completion and the
      computer none, every difficulty but easy plays that line's empty
      square. */
  lemma BlocksOnlyThreat(g: Grid, ai: Player, human: Player, d: Difficulty, coin: bool, pick: nat, k: nat)
    requires d != Easy
    requires WinningMove(g, ai).None?
    requires k < |Lines| && Threat(g, Lines[k], human)
    requires forall j :: 0 <= j < |Lines| && j != k ==> !Threat(g, Lines[j], human)
    ensures AIMove(g, ai, human, d, coin, pick) == Some(EmptyOn(g, Lines[k]))
  {
    OnlyThreatFound(g, human, k);
  }

  /** A line that is the only threat of `p` is the one WinningMove finds. */
  lemma OnlyThreatFound(g: Grid, p: Player, k: nat)
    requires k < |Lines| && Threat(g, Lines[k], p)
    requires forall j :: 0 <= j < |Lines| && j != k ==> !Threat(g, Lines[j], p)
    ensures WinningMove(g, p) == Some(EmptyOn(g, Lines[k]))
  {
    var j :| 0 <= j < |Lines| && Threat(g, Lines[j], p) &&
      WinningMove(g, p).value == EmptyOn(g, Lines[j]);
    assert j == k;
  }

  /** On easy, every empty square can be the answer for some draw. */
  lemma EasyReachesEveryEmptySquare(g: Grid, ai: Player, human: Player, coin: bool, i: Index)
    requires g[i] == Empty
    ensures exists pick: nat :: AIMove(g, ai, human, Easy, coin, pick) == Some(i)
  {
    RandomElementReaches(EmptyIndices(g), i);
    var pick: nat :| RandomElement(EmptyIndices(g), pick) == Some(i);
    assert AIMove(g, ai, human, Easy, coin, pick) == Some(i);
  }

  /** The threat count over all eight lines, written out line by line. */
  lemma ThreatCountUnfolded(g: Grid, p: Player)
    ensures ThreatsBefore(g, p, |Lines|) ==
      (if Threat(g, Lines[0], p) then 1 else 0) + (if Threat(g, Lines[1], p) then 1 else 0) +
      (if Threat(g, Lines[2], p) then 1 else 0) + (if Threat(g, Lines[3], p) then 1 else 0) +
      (if Threat(g, Lines[4], p) then 1 else 0) + (if Threat(g, Lines[5], p) then 1 else 0) +
      (if Threat(g, Lines[6], p) then 1 else 0) + (if Threat(g, Lines[7], p) then 1 else 0)
  {
    assert ThreatsBefore(g, p, 2) == ThreatsBefore(g, p, 0) +
      (if Threat(g, Lines[0], p) then 1 else 0) + (if Threat(g, Lines[1], p) then 1 else 0);
    assert ThreatsBefore(g, p, 4) == ThreatsBefore(g, p, 2) +
      (if Threat(g, Lines[2], p) then 1 else 0) + (if Threat(g, Lines[3], p) then 1 else 0);
    assert ThreatsBefore(g, p, 6) == ThreatsBefore(g, p, 4) +
      (if Threat(g, Lines[4], p) then 1 else 0) + (if Threat(g, Lines[5], p) then 1 else 0);
  }

  /** X X . / O O . / . . . */
  const WinExample: Grid :=
    [Mark(X), Mark(X), Empty, Mark(O), Mark(O), Empty, Empty, Empty, Empty]

  /** Both sides threaten: O would complete the middle row at 5, but the
      computer playing X takes its own win on the top row at 2. */
  lemma WinExampleTakesWin(d: Difficulty, coin: bool, pick: nat)
    requires d != Easy
    ensures WinningMove(WinExample, O) == Some(5)
    ensures AIMove(WinExample, X, O, d, coin, pick) == Some(2)
  {
    assert Threat(WinExample, Lines[0], X);
    assert !Threat(WinExample, Lines[0], O) && Threat(WinExample, Lines[1], O);
    FirstWhereIs(Lines, ThreatTest(WinExample, O), 1);
  }

  /** O . . / . X . / . . O */
  const ForkExample: Grid :=
    [Mark(O), Empty, Empty, Empty, Mark(X), Empty, Empty, Empty, Mark(O)]

  /** X has no fork on the example board. */
  lemma ForkExampleNoForkForX()
    ensures ForkMove(ForkExample, X).None?
  {
    var g := ForkExample;
    assert !ForkAt(g, 1, X) by { ThreatCountUnfolded(g[1 := Mark(X)], X); }
    assert !ForkAt(g, 2, X) by { ThreatCountUnfolded(g[2 := Mark(X)], X); }
    assert !ForkAt(g, 3, X) by { ThreatCountUnfolded(g[3 := Mark(X)], X); }
    assert !ForkAt(g, 5, X) by { ThreatCountUnfolded(g[5 := Mark(X)], X); }
    assert !ForkAt(g, 6, X) by { ThreatCountUnfolded(g[6 := Mark(X)], X); }
    assert !ForkAt(g, 7, X) by { ThreatCountUnfolded(g[7 := Mark(X)], X); }
    forall i: Index | g[i] == Empty ensures !ForkAt(g, i, X) {
      assert i == 1 || i == 2 || i == 3 || i == 5 || i == 6 || i == 7;
    }
  }

  /** ForkMove is the empty forking square with no smaller one. */
  lemma ForkMoveIs(g: Grid, p: Player, v: Index)
    requires g[v] == Empty && ForkAt(g, v, p)
    requires forall i: Index :: i < v && g[i] == Empty ==> !ForkAt(g, i, p)
    ensures ForkMove(g, p) == Some(v)
  {
    assert ForkMove(g, p).Some?;
  }

  /** O's first fork on the example board is square 2. */
  lemma ForkExampleForkForO()
    ensures ForkMove(ForkExample, O) == Some(2)
  {
    var g := ForkExample;
    assert !ForkAt(g, 1, O) by { ThreatCountUnfolded(g[1 := Mark(O)], O); }
    assert ForkAt(g, 2, O) by { ThreatCountUnfolded(g[2 := Mark(O)], O); }
    forall i: Index | i < 2 && g[i] == Empty ensures !ForkAt(g, i, O) {
      assert i == 1;
    }
    ForkMoveIs(g, O, 2);
  }

  /** After X plays `i`, O can still fork on `j`. */
  lemma ForkExampleReply(i: Index, j: Index)
    requires ForkExample[i] == Empty && i != j
    requires j == if i == 1 || i == 2 || i == 5 then 6 else 2
    ensures !LeavesNoFork(ForkExample, i, X, O)
  {
    var h := ForkExample[i := Mark(X)];
    ThreatCountUnfolded(h[j := Mark(O)], O);
    assert h[j] == Empty && ForkAt(h, j, O);
  }

  /** No square of X's removes every O fork on the example board. */
  lemma ForkExampleNoBlock()
    ensures BlockFork(ForkExample, X, O).None?
  {
    forall i: Index | ForkExample[i] == Empty ensures !LeavesNoFork(ForkExample, i, X, O) {
      ForkExampleReply(i, if i == 1 || i == 2 || i == 5 then 6 else 2);
    }
  }

  /** On hard, once neither side has an immediate win, the remaining rules
      apply in order: fork, block the opponent's fork, centre / corner /
      edge, any empty square. */
  lemma HardRuleOrder(g: Grid, ai: Player, human: Player, coin: bool, pick: nat)
    requires WinningMove(g, ai).None? && WinningMove(g, human).None?
    ensures AIMove(g, ai, human, Hard, coin, pick) ==
      if ForkMove(g, ai).Some? then ForkMove(g, ai)
      else if ForkMove(g, human).Some? && BlockFork(g, ai, human).Some? then BlockFork(g, ai, human)
      else if StrategicMove(g, pick).Some? then StrategicMove(g, pick)
      else RandomElement(EmptyIndices(g), pick)
  {
  }

  /** On hard, with no immediate win, no own fork and no fork-blocking
      square, the strategic rule decides. */
  lemma HardFallsThrough(g: Grid, ai: Player, human: Player, coin: bool, pick: nat)
    requires WinningMove(g, ai).None? && WinningMove(g, human).None?
    requires ForkMove(g, ai).None? && BlockFork(g, ai, human).None?
    requires StrategicMove(g, pick).Some?
    ensures AIMove(g, ai, human, Hard, coin, pick) == StrategicMove(g, pick)
  {
    HardRuleOrder(g, ai, human, coin, pick);
  }

  /** Neither side has an immediate win on the example board. */
  lemma ForkExampleNoWins()
    ensures WinningMove(ForkExample, X).None? && WinningMove(ForkExample, O).None?
  {
    var g := ForkExample;
    forall k | 0 <= k < |Lines| ensures !Threat(g, Lines[k], X) && !Threat(g, Lines[k], O) {
      assert k in {0, 1, 2, 3, 4, 5, 6, 7};
    }
  }

  /** The strategic rule answers an empty corner on the example board. */
  lemma ForkExampleStrategic(pick: nat)
    ensures StrategicMove(ForkExample, pick) == Some(2) || StrategicMove(ForkExample, pick) == Some(6)
  {
    CornerChoice(ForkExample, pick);
  }

  /** With the centre and the corners 0 and 8 taken and corner 2 free, the
      strategic rule answers 2 or 6. */
  lemma CornerChoice(g: Grid, pick: nat)
    requires g[4] != Empty && g[0] != Empty && g[8] != Empty && g[2] == Empty
    ensures StrategicMove(g, pick) == Some(2) || StrategicMove(g, pick) == Some(6)
  {
    assert 2 in Corners;
    assert StrategicMove(g, pick).value in Corners;
  }

  /** On the example board the hard computer playing X neither forks nor
      blocks O's fork: it takes corner 2 or 6, whichever the draw picks. */
  lemma ForkExampleFallsToCorner(coin: bool, pick: nat)
    ensures var r := AIMove(ForkExample, X, O, Hard, coin, pick); r == Some(2) || r == Some(6)
  {
    ForkExampleNoWins();
    ForkExampleNoForkForX();
    ForkExampleNoBlock();
    ForkExampleStrategic(pick);
    HardFallsThrough(ForkExample, X, O, coin, pick);
  }
}
