/**
 The Connect Four board (server/index.js): dropping a disc and looking for four in a row. A cell holds 0 when
 it is empty and otherwise the player, 1 or 2. Row 0 is the top.
*/
module ConnectFour {
  import opened Wrappers

  const ROWS: nat := 6
  const COLS: nat := 7

  type Board = seq<seq<int>>

  datatype Dir = Dir(dr: int, dc: int)

  datatype Pos = Pos(r: int, c: int)

  datatype Outcome = Win(player: int, cells: seq<Pos>) | Draw | Open

  predicate IsRow(row: seq<int>) {
    |row| == COLS && forall c :: 0 <= c < COLS ==> 0 <= row[c] <= 2
  }

  predicate IsBoard(b: Board) {
    |b| == ROWS && forall r :: 0 <= r < ROWS ==> IsRow(b[r])
  }

  predicate OnBoard(r: int, c: int) {
    0 <= r < ROWS && 0 <= c < COLS
  }

  function Cell(b: Board, r: int, c: int): (p: int)
    requires IsBoard(b) && OnBoard(r, c)
    ensures 0 <= p <= 2
  {
    assert IsRow(b[r]);
    b[r][c]
  }

  function EmptyBoard(): (b: Board)
    ensures IsBoard(b) && forall r, c :: OnBoard(r, c) ==> Cell(b, r, c) == 0
  {
    var row := seq(COLS, _ => 0);
    seq(ROWS, _ => row)
  }

  // ----- four in a row -----

  function DirAt(k: nat): Dir {
    if k == 0 then Dir(0, 1) else if k == 1 then Dir(1, 0) else if k == 2 then Dir(1, 1) else Dir(1, -1)
  }

  predicate Owned(b: Board, at: Pos, p: int)
    requires IsBoard(b)
  {
    OnBoard(at.r, at.c) && Cell(b, at.r, at.c) == p
  }

  /** Four cells from a start in one direction. */
  function LineCells(r: int, c: int, d: Dir): seq<Pos> {
    [Pos(r, c), Pos(r + d.dr, c + d.dc), Pos(r + d.dr * 2, c + d.dc * 2), Pos(r + d.dr * 3, c + d.dc * 3)]
  }

  predicate Line(b: Board, r: int, c: int, d: Dir, p: int)
    requires IsBoard(b)
  {
    var cells := LineCells(r, c, d);
    Owned(b, cells[0], p) && Owned(b, cells[1], p) && Owned(b, cells[2], p) && Owned(b, cells[3], p)
  }

  /** Player p has four in a row, in one of the four directions. */
  ghost predicate HasLine(b: Board, p: int)
    requires IsBoard(b)
  {
    exists r, c, k :: 0 <= k < 4 && Line(b, r, c, DirAt(k), p)
  }

  /** The cells are such a line of p. */
  ghost predicate IsLineOf(b: Board, cells: seq<Pos>, p: int)
    requires IsBoard(b)
  {
    exists r, c, k :: 0 <= k < 4 && Line(b, r, c, DirAt(k), p) && cells == LineCells(r, c, DirAt(k))
  }

  predicate TopFull(b: Board)
    requires IsBoard(b)
  {
    forall c :: 0 <= c < COLS ==> Cell(b, 0, c) != 0
  }

  /** The first line in scanning order, from position (r, c) and direction k on. */
  function FirstLine(b: Board, r: nat, c: nat, k: nat): (o: Outcome)
    requires IsBoard(b) && r <= ROWS && c <= COLS && k <= 4
    ensures !o.Draw?
    decreases ROWS - r, COLS - c, 4 - k
  {
    if r == ROWS then Open
    else if c == COLS then FirstLine(b, r + 1, 0, 0)
    else if k == 4 || Cell(b, r, c) == 0 then FirstLine(b, r, c + 1, 0)
    else if Line(b, r, c, DirAt(k), Cell(b, r, c)) then Win(Cell(b, r, c), LineCells(r, c, DirAt(k)))
    else FirstLine(b, r, c, k + 1)
  }

  function CheckWinner(b: Board): Outcome
    requires IsBoard(b)
  {
    var line := FirstLine(b, 0, 0, 0);
    if line.Win? then line else if TopFull(b) then Draw else Open
  }

  /** The cells from a start in one direction, as long as they belong to p, up to four. */
  method CollectLine(b: Board, r: nat, c: nat, d: Dir, p: int) returns (cells: seq<Pos>)
    requires IsBoard(b) && OnBoard(r, c) && Cell(b, r, c) == p
    ensures |cells| <= 4
    ensures |cells| == 4 <==> Line(b, r, c, d, p)
    ensures |cells| == 4 ==> cells == LineCells(r, c, d)
  {
    ghost var all := LineCells(r, c, d);
    cells := [Pos(r, c)];
    var i := 1;
    while i < 4
      invariant 1 <= i <= 4 && cells == all[..i]
      invariant Owned(b, all[0], p) && (i > 1 ==> Owned(b, all[1], p)) && (i > 2 ==> Owned(b, all[2], p))
                && (i > 3 ==> Owned(b, all[3], p))
    {
      var nr, nc := r + d.dr * i, c + d.dc * i;
      assert Pos(nr, nc) == all[i] by {
        if i == 1 { } else if i == 2 { } else { assert i == 3; }
      }
      if nr < 0 || nr >= ROWS || nc < 0 || nc >= COLS || Cell(b, nr, nc) != p {
        assert !Owned(b, all[i], p);
        break;
      }
      cells := cells + [Pos(nr, nc)];
      i := i + 1;
    }
  }

  method C4CheckWinner(b: Board) returns (o: Outcome)
    requires IsBoard(b)
    ensures o == CheckWinner(b)
  {
    var r := 0;
    while r < ROWS
      invariant 0 <= r <= ROWS
      invariant FirstLine(b, 0, 0, 0) == FirstLine(b, r, 0, 0)
    {
      var c := 0;
      while c < COLS
        invariant 0 <= c <= COLS
        invariant FirstLine(b, 0, 0, 0) == FirstLine(b, r, c, 0)
      {
        var p := Cell(b, r, c);
        if p != 0 {
          var k := 0;
          while k < 4
            invariant 0 <= k <= 4
            invariant FirstLine(b, 0, 0, 0) == FirstLine(b, r, c, k)
          {
            var cells := CollectLine(b, r, c, DirAt(k), p);
            if |cells| == 4 {
              return Win(p, cells);
            }
            k := k + 1;
          }
        }
        c := c + 1;
      }
      r := r + 1;
    }
    if forall c :: 0 <= c < COLS ==> Cell(b, 0, c) != 0 {
      return Draw;
    }
    return Open;
  }

  // ----- what the scan finds -----

  lemma {:induction false} FirstLineIsLine(b: Board, r: nat, c: nat, k: nat)
    requires IsBoard(b) && r <= ROWS && c <= COLS && k <= 4
    ensures var o := FirstLine(b, r, c, k);
            o.Win? ==> 1 <= o.player <= 2 && IsLineOf(b, o.cells, o.player)
    decreases ROWS - r, COLS - c, 4 - k
  {
    if r == ROWS {
    } else if c == COLS {
      FirstLineIsLine(b, r + 1, 0, 0);
    } else if k == 4 || Cell(b, r, c) == 0 {
      FirstLineIsLine(b, r, c + 1, 0);
    } else if !Line(b, r, c, DirAt(k), Cell(b, r, c)) {
      FirstLineIsLine(b, r, c, k + 1);
    } else {
      assert Line(b, r, c, DirAt(k), Cell(b, r, c));
    }
  }

  /** Position (r, c, k) comes at or after (r', c', k') in scanning order. */
  predicate NotBefore(r: int, c: int, k: int, r': int, c': int, k': int) {
    r > r' || (r == r' && (c > c' || (c == c' && k >= k')))
  }

  lemma {:induction false} FirstLineMissesNone(b: Board, r: nat, c: nat, k: nat, lr: nat, lc: nat, lk: nat, p: int)
    requires IsBoard(b) && r <= ROWS && c <= COLS && k <= 4 && OnBoard(lr, lc) && lk < 4 && p != 0
    requires Line(b, lr, lc, DirAt(lk), p) && NotBefore(lr, lc, lk, r, c, k)
    ensures FirstLine(b, r, c, k).Win?
    decreases ROWS - r, COLS - c, 4 - k
  {
    assert Owned(b, Pos(lr, lc), p);
    if c == COLS {
      FirstLineMissesNone(b, r + 1, 0, 0, lr, lc, lk, p);
    } else if k == 4 || Cell(b, r, c) == 0 {
      FirstLineMissesNone(b, r, c + 1, 0, lr, lc, lk, p);
    } else if !Line(b, r, c, DirAt(k), Cell(b, r, c)) {
      FirstLineMissesNone(b, r, c, k + 1, lr, lc, lk, p);
    }
  }

  /**
   A winner is reported exactly when somebody has four in a row, and then the winner does and the reported
   cells show it; a draw exactly when nobody has and the top row is full.
  */
  lemma CheckWinnerIff(b: Board)
    requires IsBoard(b)
    ensures var o := CheckWinner(b);
            && (o.Win? <==> HasLine(b, 1) || HasLine(b, 2))
            && (o.Win? ==> 1 <= o.player <= 2 && HasLine(b, o.player) && IsLineOf(b, o.cells, o.player))
            && (o.Draw? <==> !HasLine(b, 1) && !HasLine(b, 2) && TopFull(b))
  {
    FirstLineIff(b);
  }

  lemma FirstLineIff(b: Board)
    requires IsBoard(b)
    ensures var o := FirstLine(b, 0, 0, 0);
            && (o.Win? <==> HasLine(b, 1) || HasLine(b, 2))
            && (o.Win? ==> 1 <= o.player <= 2 && HasLine(b, o.player) && IsLineOf(b, o.cells, o.player))
  {
    FirstLineIsLine(b, 0, 0, 0);
    LineIsFound(b, 1);
    LineIsFound(b, 2);
    var o := FirstLine(b, 0, 0, 0);
    if o.Win? {
      LineOfIsLine(b, o.cells, o.player);
      assert o.player == 1 || o.player == 2;
    }
  }

  lemma LineIsFound(b: Board, p: int)
    requires IsBoard(b) && 1 <= p <= 2
    ensures HasLine(b, p) ==> FirstLine(b, 0, 0, 0).Win?
  {
    if HasLine(b, p) {
      var r, c, k :| 0 <= k < 4 && Line(b, r, c, DirAt(k), p);
      assert Owned(b, Pos(r, c), p);
      FirstLineMissesNone(b, 0, 0, 0, r, c, k, p);
    }
  }

  lemma LineOfIsLine(b: Board, cells: seq<Pos>, p: int)
    requires IsBoard(b) && IsLineOf(b, cells, p)
    ensures HasLine(b, p)
  {
  }

  // ----- dropping a disc -----

  /** The lowest empty row of the column, looking from row r up; None if there is none. */
  function LowestEmpty(b: Board, col: nat, r: int): Option<nat>
    requires IsBoard(b) && col < COLS && -1 <= r < ROWS
    decreases r + 1
  {
    if r < 0 then None else if Cell(b, r, col) == 0 then Some(r) else LowestEmpty(b, col, r - 1)
  }

  function Place(b: Board, r: nat, col: nat, p: int): (b': Board)
    requires IsBoard(b) && OnBoard(r, col) && 1 <= p <= 2
    ensures IsBoard(b')
    ensures forall r', c' :: OnBoard(r', c') ==> Cell(b', r', c') == if r' == r && c' == col then p else Cell(b, r', c')
  {
    assert IsRow(b[r]);
    b[r := b[r][col := p]]
  }

  datatype Dropped = Dropped(board: Board, row: nat)

  function Drop(b: Board, col: nat, p: int): Option<Dropped>
    requires IsBoard(b) && col < COLS && 1 <= p <= 2
  {
    var row := LowestEmpty(b, col, ROWS - 1);
    if row.Some? && row.value < ROWS then Some(Dropped(Place(b, row.value, col, p), row.value)) else None
  }

  method C4Drop(b: Board, col: nat, p: int) returns (dropped: Option<Dropped>)
    requires IsBoard(b) && col < COLS && 1 <= p <= 2
    ensures dropped == Drop(b, col, p)
  {
    var r: int := ROWS - 1;
    while r >= 0
      invariant -1 <= r < ROWS
      invariant LowestEmpty(b, col, ROWS - 1) == LowestEmpty(b, col, r)
    {
      if Cell(b, r, col) == 0 {
        return Some(Dropped(Place(b, r, col, p), r));
      }
      r := r - 1;
    }
    return None;
  }

  /** No disc hangs above an empty cell. */
  ghost predicate Settled(b: Board)
    requires IsBoard(b)
  {
    forall r, c :: 0 <= r < ROWS - 1 && 0 <= c < COLS && Cell(b, r, c) != 0 ==> Rests(b, r, c)
  }

  predicate Rests(b: Board, r: int, c: int)
    requires IsBoard(b) && OnBoard(r, c) && r < ROWS - 1
  {
    Cell(b, r + 1, c) != 0
  }

  lemma {:induction false} LowestEmptyIs(b: Board, col: nat, r: int)
    requires IsBoard(b) && col < COLS && -1 <= r < ROWS
    ensures var e := LowestEmpty(b, col, r);
            if e.Some? then
              e.value <= r && Cell(b, e.value, col) == 0 && forall i :: e.value < i <= r ==> Cell(b, i, col) != 0
            else forall i :: 0 <= i <= r ==> Cell(b, i, col) != 0
    decreases r + 1
  {
    if r >= 0 && Cell(b, r, col) != 0 {
      LowestEmptyIs(b, col, r - 1);
    }
  }

  /** A column that is not full to the top takes a disc, which comes to rest on what is there. */
  lemma DropIs(b: Board, col: nat, p: int)
    requires IsBoard(b) && Settled(b) && col < COLS && 1 <= p <= 2
    ensures var d := Drop(b, col, p);
            && (d.Some? <==> Cell(b, 0, col) == 0)
            && (d.Some? ==> d.value.row < ROWS && Cell(b, d.value.row, col) == 0
                            && d.value.board == Place(b, d.value.row, col, p) && Settled(d.value.board))
  {
    LowestEmptyIs(b, col, ROWS - 1);
    var d := Drop(b, col, p);
    if d.Some? {
      EmptyAbove(b, col, d.value.row);
      var b' := d.value.board;
      forall r, c | 0 <= r < ROWS - 1 && 0 <= c < COLS && Cell(b', r, c) != 0 ensures Rests(b', r, c) {
        if c != col || r != d.value.row {
          assert Rests(b, r, c);
        }
      }
    }
  }

  lemma EmptyAbove(b: Board, col: nat, r: nat)
    requires IsBoard(b) && Settled(b) && OnBoard(r, col) && Cell(b, r, col) == 0
    ensures Cell(b, 0, col) == 0
  {
  }

  lemma FullBelow(b: Board, col: nat, r: nat)
    requires IsBoard(b) && Settled(b) && OnBoard(r, col) && Cell(b, 0, col) != 0
    ensures Cell(b, r, col) != 0
  {
  }

  /** A new disc of p gives nobody else a line. */
  lemma OnlyMoverGainsLine(b: Board, r: nat, col: nat, p: int, other: int)
    requires IsBoard(b) && OnBoard(r, col) && 1 <= p <= 2 && other != p && HasLine(Place(b, r, col, p), other)
    ensures HasLine(b, other)
  {
    var b' := Place(b, r, col, p);
    var lr, lc, k :| 0 <= k < 4 && Line(b', lr, lc, DirAt(k), other);
    var d := DirAt(k);
    assert Line(b, lr, lc, d, other);
  }

  // ----- counting discs -----

  function CountRow(row: seq<int>, p: int): (n: nat)
    ensures n <= |row|
  {
    if row == [] then 0 else (if row[0] == p then 1 else 0) + CountRow(row[1..], p)
  }

  function Count(b: Board, p: int): nat {
    if b == [] then 0 else CountRow(b[0], p) + Count(b[1..], p)
  }

  lemma {:induction false} CountRowSet(row: seq<int>, c: nat, v: int, p: int)
    requires c < |row|
    ensures CountRow(row[c := v], p) == CountRow(row, p) - (if row[c] == p then 1 else 0) + (if v == p then 1 else 0)
  {
    if c == 0 {
      assert row[c := v][1..] == row[1..];
    } else {
      CountRowSet(row[1..], c - 1, v, p);
      assert row[c := v][1..] == row[1..][c - 1 := v];
    }
  }

  lemma {:induction false} CountSet(b: Board, r: nat, c: nat, v: int, p: int)
    requires r < |b| && c < |b[r]|
    ensures Count(b[r := b[r][c := v]], p) == Count(b, p) - (if b[r][c] == p then 1 else 0) + (if v == p then 1 else 0)
  {
    if r == 0 {
      CountRowSet(b[0], c, v, p);
      assert b[r := b[r][c := v]][1..] == b[1..];
    } else {
      CountSet(b[1..], r - 1, c, v, p);
      assert b[r := b[r][c := v]][1..] == b[1..][r - 1 := b[1..][r - 1][c := v]];
    }
  }

  /** A disc put on an empty cell counts once, for its player only. */
  lemma PlaceCounts(b: Board, r: nat, col: nat, p: int, q: int)
    requires IsBoard(b) && OnBoard(r, col) && 1 <= p <= 2 && 1 <= q <= 2 && Cell(b, r, col) == 0
    ensures Count(Place(b, r, col, p), q) == Count(b, q) + if p == q then 1 else 0
  {
    assert IsRow(b[r]);
    CountSet(b, r, col, p, q);
  }

  lemma {:induction false} RowTotal(row: seq<int>)
    requires forall c :: 0 <= c < |row| ==> 0 <= row[c] <= 2
    ensures CountRow(row, 0) + CountRow(row, 1) + CountRow(row, 2) == |row|
  {
    if row != [] { RowTotal(row[1..]); }
  }

  lemma {:induction false} Total(b: Board)
    requires forall r :: 0 <= r < |b| ==> IsRow(b[r])
    ensures Count(b, 0) + Count(b, 1) + Count(b, 2) == COLS * |b|
  {
    if b != [] {
      assert IsRow(b[0]);
      RowTotal(b[0]);
      assert forall r :: 0 <= r < |b[1..]| ==> b[1..][r] == b[r + 1];
      Total(b[1..]);
    }
  }

  lemma {:induction false} NoneInRow(row: seq<int>)
    requires forall c :: 0 <= c < |row| ==> row[c] != 0
    ensures CountRow(row, 0) == 0
  {
    if row != [] { NoneInRow(row[1..]); }
  }

  lemma {:induction false} NoneEmpty(b: Board)
    requires forall r, c :: 0 <= r < |b| && 0 <= c < |b[r]| ==> b[r][c] != 0
    ensures Count(b, 0) == 0
  {
    if b != [] {
      NoneInRow(b[0]);
      NoneEmpty(b[1..]);
    }
  }

  lemma {:induction false} SomeInRow(row: seq<int>, c: nat)
    requires c < |row| && row[c] == 0
    ensures CountRow(row, 0) > 0
  {
    if c > 0 { SomeInRow(row[1..], c - 1); }
  }

  /** On a settled board the top row is full exactly when all 42 cells are. */
  lemma TopFullIff(b: Board)
    requires IsBoard(b) && Settled(b)
    ensures TopFull(b) <==> Count(b, 1) + Count(b, 2) == 42
  {
    Total(b);
    if TopFull(b) {
      forall r, c | 0 <= r < |b| && 0 <= c < |b[r]| ensures b[r][c] != 0 {
        assert IsRow(b[r]);
        assert Cell(b, 0, c) != 0;
        FullBelow(b, c, r);
      }
      NoneEmpty(b);
    } else {
      var c :| 0 <= c < COLS && Cell(b, 0, c) == 0;
      SomeInRow(b[0], c);
    }
  }

  lemma EmptyBoardIs()
    ensures var b := EmptyBoard();
            Settled(b) && Count(b, 1) == 0 && Count(b, 2) == 0 && !HasLine(b, 1) && !HasLine(b, 2) && !TopFull(b)
  {
    var b := EmptyBoard();
    NoDiscs(b, 1);
    NoDiscs(b, 2);
    forall p, r, c, k | 1 <= p <= 2 && 0 <= k < 4 ensures !Line(b, r, c, DirAt(k), p) {
      assert !Owned(b, Pos(r, c), p);
    }
    assert Cell(b, 0, 0) == 0;
  }

  lemma {:induction false} NoDiscs(b: Board, p: int)
    requires p != 0 && forall r, c :: 0 <= r < |b| && 0 <= c < |b[r]| ==> b[r][c] == 0
    ensures Count(b, p) == 0
  {
    if b != [] {
      NoDiscsInRow(b[0], p);
      NoDiscs(b[1..], p);
    }
  }

  lemma {:induction false} NoDiscsInRow(row: seq<int>, p: int)
    requires p != 0 && forall c :: 0 <= c < |row| ==> row[c] == 0
    ensures CountRow(row, p) == 0
  {
    if row != [] { NoDiscsInRow(row[1..], p); }
  }
}
