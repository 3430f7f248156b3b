/** The 3x3 board shared by the outcome evaluator, the move-selection
    heuristic and the match state: the two symbols, cells, the eight lines,
    and the scans (first match, filter, random pick, copy-and-write) that the
    three source files build their logic from. */
module Grid {
  import opened Options

  datatype Player = X | O {
    /** The opponent's symbol (`playerSymbol === "X" ? "O" : "X"`). */
    function Other(): (q: Player)
      ensures q != this
    {
      if this == X then O else X
    }
  }

  /** A square: `null` or one of the two symbols. */
  datatype Cell = Empty | Mark(p: Player)

  type Index = i: nat | i < 9

  /** A board snapshot, always nine squares. */
  type Grid = g: seq<Cell> | |g| == 9
    witness [Empty, Empty, Empty, Empty, Empty, Empty, Empty, Empty, Empty]

  /** `Array(9).fill(null)`. */
  const EmptyGrid: Grid := [Empty, Empty, Empty, Empty, Empty, Empty, Empty, Empty, Empty]

  /** Every square holds a symbol. */
  predicate Full(g: Grid) {
    forall i: Index :: g[i] != Empty
  }

  /** Three squares that win when they hold the same symbol. */
  datatype Line = Line(a: Index, b: Index, c: Index) {
    predicate Contains(i: Index) {
      i == a || i == b || i == c
    }
  }

  /** The eight lines, in the order all three source files scan them:
      rows, columns, then the two diagonals. */
  const Lines: seq<Line> := [
    Line(0, 1, 2), Line(3, 4, 5), Line(6, 7, 8),
    Line(0, 3, 6), Line(1, 4, 7), Line(2, 5, 8),
    Line(0, 4, 8), Line(2, 4, 6)
  ]

  /** All three squares of `l` hold the same symbol. */
  predicate Complete(g: Grid, l: Line) {
    g[l.a] != Empty && g[l.a] == g[l.b] && g[l.a] == g[l.c]
  }

  /** The position of the first element of `s` that passes `test`: a loop
      with an early `return`, or `Array.prototype.find`. */
  function FirstWhere<T>(s: seq<T>, test: T -> bool): (r: Option<nat>)
    ensures r.Some? ==> r.value < |s| && test(s[r.value])
    ensures r.Some? ==> forall j :: 0 <= j < r.value ==> !test(s[j])
    ensures r.None? <==> forall j :: 0 <= j < |s| ==> !test(s[j])
  {
    if |s| == 0 then None
    else if test(s[0]) then Some(0)
    else match FirstWhere(s[1..], test) {
      case None => None
      case Some(k) => Some(k + 1)
    }
  }

  /** A position that passes `test` with none before it is the one
      FirstWhere finds. */
  lemma FirstWhereIs<T>(s: seq<T>, test: T -> bool, k: nat)
    requires k < |s| && test(s[k])
    requires forall j :: 0 <= j < k ==> !test(s[j])
    ensures FirstWhere(s, test) == Some(k)
  {
    var r := FirstWhere(s, test);
    if r.Some? {
      assert !(r.value < k);
      assert !(k < r.value);
    }
  }

  predicate Ascending(s: seq<Index>) {
    forall i, j :: 0 <= i < j < |s| ==> s[i] < s[j]
  }

  /** The squares of `cells` that are empty, in the order of `cells`
      (a `filter`). */
  function EmptyAmong(g: Grid, cells: seq<Index>): (r: seq<Index>)
    ensures forall i :: i in r <==> i in cells && g[i] == Empty
  {
    if |cells| == 0 then []
    else (if g[cells[0]] == Empty then [cells[0]] else []) + EmptyAmong(g, cells[1..])
  }

  lemma {:induction false} EmptyAmongAscending(g: Grid, cells: seq<Index>)
    requires Ascending(cells)
    ensures Ascending(EmptyAmong(g, cells))
  {
    if |cells| > 0 {
      var rest := EmptyAmong(g, cells[1..]);
      EmptyAmongAscending(g, cells[1..]);
      forall i | i in rest ensures cells[0] < i {
        var k :| 0 <= k < |cells[1..]| && cells[1..][k] == i;
        assert cells[k + 1] == i;
      }
      var head := if g[cells[0]] == Empty then [cells[0]] else [];
      var r := head + rest;
      assert r == EmptyAmong(g, cells);
      forall i, j | 0 <= i < j < |r| ensures r[i] < r[j] {
        if |head| == 1 && i == 0 {
          assert r[j] == rest[j - 1];
          assert rest[j - 1] in rest;
        } else {
          assert r[i] == rest[i - |head|] && r[j] == rest[j - |head|];
        }
      }
    }
  }

  const AllCells: seq<Index> := [0, 1, 2, 3, 4, 5, 6, 7, 8]

  /** `getEmptyIndices`: exactly the empty squares, in ascending order. */
  function EmptyIndices(g: Grid): (r: seq<Index>)
    ensures forall i: Index :: i in r <==> g[i] == Empty
    ensures Ascending(r)
    ensures |r| == 0 <==> Full(g)
  {
    assert forall i: Index :: i in AllCells by {
      forall i: Index ensures i in AllCells {
        assert AllCells[i] == i;
      }
    }
    assert Ascending(AllCells) by {
      forall i, j | 0 <= i < j < |AllCells| ensures AllCells[i] < AllCells[j] {
        assert AllCells[i] == i && AllCells[j] == j;
      }
    }
    EmptyAmongAscending(g, AllCells);
    var r := EmptyAmong(g, AllCells);
    assert |r| > 0 ==> r[0] in r;
    r
  }

  /** `s[Math.floor(Math.random() * s.length)]`, with the random number
      replaced by an injected `pick`: the chosen position is `pick % |s|`,
      and an empty `s` gives `undefined` (None). */
  function RandomElement(s: seq<Index>, pick: nat): (r: Option<Index>)
    ensures r.None? <==> |s| == 0
    ensures r.Some? ==> r.value in s
  {
    if |s| == 0 then None else Some(s[pick % |s|])
  }

  /** The injected pick loses no behaviour: every element can be drawn. */
  lemma RandomElementReaches(s: seq<Index>, i: Index)
    requires i in s
    ensures exists pick: nat :: RandomElement(s, pick) == Some(i)
  {
    var k :| 0 <= k < |s| && s[k] == i;
    assert RandomElement(s, k) == Some(i);
  }

  /** `const copy = board.slice(); copy[i] = c;` */
  method CopyWith(board: Grid, i: Index, c: Cell) returns (copy: Grid)
    ensures copy[i] == c
    ensures forall j: Index :: j != i ==> copy[j] == board[j]
    ensures copy == board[i := c]
  {
    var a := new Cell[9](j requires 0 <= j < 9 => board[j]);
    a[i] := c;
    copy := a[..];
  }
}
