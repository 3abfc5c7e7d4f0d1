/** The dungeon level (src/dungeon.js): the map text is trimmed and split into
    rows; a scan in row-major order turns every `*` into a wall box, the last
    `X` into the start position and the last `O` into the exit box. */
module Dungeons {
  import opened Common

  /** One map character with its column x and row z. */
  datatype Cell = Cell(x: int, z: int, c: char)

  /** The cells of row z up to column n, left to right. */
  function RowCells(row: string, z: int, n: nat): (r: seq<Cell>)
    requires n <= |row|
    ensures |r| == n
  {
    if n == 0 then [] else RowCells(row, z, n - 1) + [Cell(n - 1, z, row[n - 1])]
  }

  /** Cell j of a row scan is column j of the row. */
  lemma {:induction false} RowCellsAt(row: string, z: int, n: nat)
    requires n <= |row|
    ensures forall j :: 0 <= j < n ==> RowCells(row, z, n)[j] == Cell(j, z, row[j])
  {
    if n > 0 {
      RowCellsAt(row, z, n - 1);
    }
  }

  /** The cells of the first m rows in scan order: row by row, each left to
      right. */
  function Cells(rows: seq<string>, m: nat): (r: seq<Cell>)
    requires m <= |rows|
    ensures forall j :: 0 <= j < |r| ==>
              0 <= r[j].z < m && 0 <= r[j].x < |rows[r[j].z]| && r[j].c == rows[r[j].z][r[j].x]
  {
    if m == 0 then []
    else
      RowCellsAt(rows[m - 1], m - 1, |rows[m - 1]|);
      Cells(rows, m - 1) + RowCells(rows[m - 1], m - 1, |rows[m - 1]|)
  }

  /** Every cell of the first m rows is scanned. */
  lemma {:induction false} CellsComplete(rows: seq<string>, m: nat, z: int, x: int)
    requires m <= |rows| && 0 <= z < m && 0 <= x < |rows[z]|
    ensures Cell(x, z, rows[z][x]) in Cells(rows, m)
  {
    if z < m - 1 {
      CellsComplete(rows, m - 1, z, x);
    } else {
      RowCellsAt(rows[m - 1], m - 1, |rows[m - 1]|);
      assert RowCells(rows[m - 1], m - 1, |rows[m - 1]|)[x] == Cell(x, z, rows[z][x]);
    }
  }

  /** The scan visits cells in row-major order: a cell scanned earlier lies
      on an earlier row, or earlier on the same row. */
  lemma {:induction false} CellsRowMajor(rows: seq<string>, m: nat, i: int, j: int)
    requires m <= |rows| && 0 <= i < j < |Cells(rows, m)|
    ensures var a, b := Cells(rows, m)[i], Cells(rows, m)[j];
            a.z < b.z || (a.z == b.z && a.x < b.x)
  {
    var prev := Cells(rows, m - 1);
    assert Cells(rows, m) == prev + RowCells(rows[m - 1], m - 1, |rows[m - 1]|);
    if j < |prev| {
      CellsRowMajor(rows, m - 1, i, j);
    } else {
      LastRowAfter(rows, m, i, j);
    }
  }

  /** The row-major step for a later cell j on the last scanned row. */
  lemma LastRowAfter(rows: seq<string>, m: nat, i: int, j: int)
    requires 0 < m <= |rows| && 0 <= i < j < |Cells(rows, m)| && |Cells(rows, m - 1)| <= j
    ensures var a, b := Cells(rows, m)[i], Cells(rows, m)[j];
            a.z < b.z || (a.z == b.z && a.x < b.x)
  {
    var prev := Cells(rows, m - 1);
    var row := RowCells(rows[m - 1], m - 1, |rows[m - 1]|);
    assert Cells(rows, m) == prev + row;
    RowCellsAt(rows[m - 1], m - 1, |rows[m - 1]|);
    assert Cells(rows, m)[j] == row[j - |prev|];
    if i >= |prev| {
      assert Cells(rows, m)[i] == row[i - |prev|];
    }
  }

  /** The box of the 1 x 2 x 1 wall mesh centred at (x, 1, z). */
  function WallBox(x: int, z: int): (b: Box)
    ensures b.min == Vec3(x as real - 0.5, 0.0, z as real - 0.5)
    ensures b.max == Vec3(x as real + 0.5, 2.0, z as real + 0.5)
  {
    BoxAround(Vec3(x as real, 1.0, z as real), Vec3(1.0, 2.0, 1.0))
  }

  /** The exit trigger: 0.8 x 2 x 0.8 centred at (x, 1, z). */
  function ExitBox(x: int, z: int): (b: Box)
    ensures b.min == Vec3(x as real - 0.4, 0.0, z as real - 0.4)
    ensures b.max == Vec3(x as real + 0.4, 2.0, z as real + 0.4)
  {
    BoxAround(Vec3(x as real, 1.0, z as real), Vec3(0.8, 2.0, 0.8))
  }

  /** How many scanned cells hold c. */
  function CountChar(cells: seq<Cell>, c: char): (n: nat)
    ensures n <= |cells|
  {
    if |cells| == 0 then 0
    else CountChar(cells[..|cells| - 1], c) + (if cells[|cells| - 1].c == c then 1 else 0)
  }

  /** The wall boxes the scan of `cells` pushes, in order: one per `*` cell
      (WallsAreStarCells says which). */
  function WallsFrom(cells: seq<Cell>): (r: seq<Box>)
    ensures |r| == CountChar(cells, '*')
  {
    if |cells| == 0 then []
    else
      var last := cells[|cells| - 1];
      WallsFrom(cells[..|cells| - 1]) + (if last.c == '*' then [WallBox(last.x, last.z)] else [])
  }

  /** Every wall box is the box of a scanned `*` cell, and every scanned `*`
      cell has its box among the walls. */
  lemma {:induction false} WallsAreStarCells(cells: seq<Cell>)
    ensures forall b :: b in WallsFrom(cells) ==>
              exists j :: 0 <= j < |cells| && cells[j].c == '*' && b == WallBox(cells[j].x, cells[j].z)
    ensures forall j :: 0 <= j < |cells| && cells[j].c == '*' ==> WallBox(cells[j].x, cells[j].z) in WallsFrom(cells)
  {
    if |cells| > 0 {
      var front := cells[..|cells| - 1];
      var last := cells[|cells| - 1];
      var w := WallsFrom(cells);
      var wf := WallsFrom(front);
      WallsAreStarCells(front);
      assert forall j :: 0 <= j < |front| ==> front[j] == cells[j];
      assert w == wf + (if last.c == '*' then [WallBox(last.x, last.z)] else []);
      forall b | b in w
        ensures exists j :: 0 <= j < |cells| && cells[j].c == '*' && b == WallBox(cells[j].x, cells[j].z)
      {
        if b in wf {
          var j :| 0 <= j < |front| && front[j].c == '*' && b == WallBox(front[j].x, front[j].z);
          assert cells[j] == front[j];
        } else {
          assert cells[|cells| - 1] == last && last.c == '*' && b == WallBox(last.x, last.z);
        }
      }
      forall j | 0 <= j < |cells| && cells[j].c == '*'
        ensures WallBox(cells[j].x, cells[j].z) in w
      {
        if j < |front| {
          assert front[j] == cells[j];
          assert WallBox(front[j].x, front[j].z) in wf;
        }
      }
    } else {
      assert WallsFrom(cells) == [];
    }
  }

  /** The index of the last scanned cell holding c, if any. */
  function LastWith(cells: seq<Cell>, c: char): (r: Option<nat>)
    ensures r.Some? ==> r.value < |cells| && cells[r.value].c == c &&
                        forall j :: r.value < j < |cells| ==> cells[j].c != c
    ensures r.None? ==> forall j :: 0 <= j < |cells| ==> cells[j].c != c
  {
    if |cells| == 0 then None
    else if cells[|cells| - 1].c == c then Some(|cells| - 1)
    else
      var r := LastWith(cells[..|cells| - 1], c);
      assert forall j :: 0 <= j < |cells| - 1 ==> cells[..|cells| - 1][j] == cells[j];
      r
  }

  /** The start position after the scan: (x, 0.5, z) of the last `X`, or
      the position held before if there is none. */
  function StartAfter(cells: seq<Cell>, prior: Vec3): (p: Vec3)
  {
    match LastWith(cells, 'X')
    case None => prior
    case Some(i) => Vec3(cells[i].x as real, 0.5, cells[i].z as real)
  }

  /** The exit after the scan: the trigger box of the last `O`, or the exit
      held before if there is none. */
  function ExitAfter(cells: seq<Cell>, prior: Option<Box>): (e: Option<Box>)
  {
    match LastWith(cells, 'O')
    case None => prior
    case Some(i) => Some(ExitBox(cells[i].x, cells[i].z))
  }

  /** How one more scanned cell extends the walls, the start and the exit. */
  lemma ScanStep(cells: seq<Cell>, cl: Cell, start: Vec3, exit: Option<Box>)
    ensures WallsFrom(cells + [cl]) == WallsFrom(cells) + (if cl.c == '*' then [WallBox(cl.x, cl.z)] else [])
    ensures StartAfter(cells + [cl], start) ==
            (if cl.c == 'X' then Vec3(cl.x as real, 0.5, cl.z as real) else StartAfter(cells, start))
    ensures ExitAfter(cells + [cl], exit) ==
            (if cl.c == 'O' then Some(ExitBox(cl.x, cl.z)) else ExitAfter(cells, exit))
  {
    assert (cells + [cl])[..|cells|] == cells;
  }

  /** `*` count of one row. */
  function StarsInRow(row: string): (n: nat)
    ensures n <= |row|
  {
    if |row| == 0 then 0 else StarsInRow(row[..|row| - 1]) + (if row[|row| - 1] == '*' then 1 else 0)
  }

  /** `*` count of the first m rows. */
  function Stars(rows: seq<string>, m: nat): (n: nat)
    requires m <= |rows|
  {
    if m == 0 then 0 else Stars(rows, m - 1) + StarsInRow(rows[m - 1])
  }

  lemma {:induction false} CountCharAppend(a: seq<Cell>, b: seq<Cell>, c: char)
    ensures CountChar(a + b, c) == CountChar(a, c) + CountChar(b, c)
    decreases |b|
  {
    if |b| > 0 {
      var b' := b[..|b| - 1];
      assert (a + b)[..|a + b| - 1] == a + b';
      CountCharAppend(a, b', c);
    } else {
      assert a + b == a;
    }
  }

  lemma {:induction false} RowStars(row: string, z: int, n: nat)
    requires n <= |row|
    ensures CountChar(RowCells(row, z, n), '*') == StarsInRow(row[..n])
  {
    if n > 0 {
      RowStars(row, z, n - 1);
      assert RowCells(row, z, n)[..n - 1] == RowCells(row, z, n - 1);
      assert row[..n][..n - 1] == row[..n - 1];
    }
  }

  /** The scan meets exactly as many `*` cells as the map text holds. */
  lemma {:induction false} WallCount(rows: seq<string>, m: nat)
    requires m <= |rows|
    ensures |WallsFrom(Cells(rows, m))| == Stars(rows, m)
  {
    var cells := Cells(rows, m);
    assert |WallsFrom(cells)| == CountChar(cells, '*');
    if m > 0 {
      StarsOfCells(rows, m);
    } else {
      assert CountChar(cells, '*') == 0;
    }
  }

  lemma {:induction false} StarsOfCells(rows: seq<string>, m: nat)
    requires m <= |rows|
    ensures CountChar(Cells(rows, m), '*') == Stars(rows, m)
  {
    if m > 0 {
      StarsOfCells(rows, m - 1);
      var row := rows[m - 1];
      CountCharAppend(Cells(rows, m - 1), RowCells(row, m - 1, |row|), '*');
      RowStars(row, m - 1, |row|);
      assert row[..|row|] == row;
    }
  }

  /** The rows of a map text: trimmed as a whole, then split on newlines. */
  function MapRows(mapString: string): (rows: seq<string>)
    ensures |rows| >= 1 && forall i :: 0 <= i < |rows| ==> '\n' !in rows[i]
    ensures Join(rows, '\n') == Trim(mapString)
  {
    JoinSplit(Trim(mapString), '\n');
    Split(Trim(mapString), '\n')
  }

  class Dungeon {
    /** The source's `map`: the rows of the level. */
    const rows: seq<string>
    var startPosition: Vec3
    var walls: seq<Box>
    var exit: Option<Box>

    /** `new Dungeon(mapString)`: start at the origin, no walls, no exit,
        then generate. */
    constructor (mapString: string)
      ensures rows == MapRows(mapString)
      ensures walls == WallsFrom(Cells(rows, |rows|))
      ensures startPosition == StartAfter(Cells(rows, |rows|), Vec3(0.0, 0.0, 0.0))
      ensures exit == ExitAfter(Cells(rows, |rows|), None)
    {
      rows := MapRows(mapString);
      startPosition := Vec3(0.0, 0.0, 0.0);
      walls := [];
      exit := None;
      new;
      Generate();
    }

    /** generate: one pass over the rows in order and over each row's
        characters in order, pushing wall boxes and overwriting the start and
        the exit. */
    method Generate()
      modifies this`walls, this`startPosition, this`exit
      ensures walls == old(walls) + WallsFrom(Cells(rows, |rows|))
      ensures startPosition == StartAfter(Cells(rows, |rows|), old(startPosition))
      ensures exit == ExitAfter(Cells(rows, |rows|), old(exit))
    {
      ghost var walls0, start0, exit0 := walls, startPosition, exit;
      var z := 0;
      ghost var done := Cells(rows, 0);
      assert walls == walls0 + WallsFrom(done);
      while z < |rows|
        invariant 0 <= z <= |rows| && done == Cells(rows, z)
        invariant walls == walls0 + WallsFrom(done)
        invariant startPosition == StartAfter(done, start0)
        invariant exit == ExitAfter(done, exit0)
      {
        ScanRow(z, done, walls0, start0, exit0);
        done := Cells(rows, z + 1);
        z := z + 1;
      }
    }

    /** The characters of row z, left to right, after the cells `before`. */
    method ScanRow(z: nat, ghost before: seq<Cell>, ghost walls0: seq<Box>, ghost start0: Vec3, ghost exit0: Option<Box>)
      requires z < |rows| && before == Cells(rows, z)
      requires walls == walls0 + WallsFrom(before)
      requires startPosition == StartAfter(before, start0)
      requires exit == ExitAfter(before, exit0)
      modifies this`walls, this`startPosition, this`exit
      ensures walls == walls0 + WallsFrom(Cells(rows, z + 1))
      ensures startPosition == StartAfter(Cells(rows, z + 1), start0)
      ensures exit == ExitAfter(Cells(rows, z + 1), exit0)
    {
      var row := rows[z];
      var x := 0;
      ghost var cur := before;
      assert RowCells(row, z, 0) == [];
      while x < |row|
        invariant 0 <= x <= |row| && cur == before + RowCells(row, z, x)
        invariant walls == walls0 + WallsFrom(cur)
        invariant startPosition == StartAfter(cur, start0)
        invariant exit == ExitAfter(cur, exit0)
      {
        ScanCell(x, z, row[x], cur, walls0, start0, exit0);
        cur := cur + [Cell(x, z, row[x])];
        x := x + 1;
      }
      assert Cells(rows, z + 1) == before + RowCells(row, z, |row|);
    }

    /** One character ch at column x of row z, after the cells `cur`. */
    method ScanCell(x: int, z: int, ch: char, ghost cur: seq<Cell>, ghost walls0: seq<Box>, ghost start0: Vec3,
                    ghost exit0: Option<Box>)
      requires walls == walls0 + WallsFrom(cur)
      requires startPosition == StartAfter(cur, start0)
      requires exit == ExitAfter(cur, exit0)
      modifies this`walls, this`startPosition, this`exit
      ensures walls == walls0 + WallsFrom(cur + [Cell(x, z, ch)])
      ensures startPosition == StartAfter(cur + [Cell(x, z, ch)], start0)
      ensures exit == ExitAfter(cur + [Cell(x, z, ch)], exit0)
    {
      ScanStep(cur, Cell(x, z, ch), start0, exit0);
      if ch == '*' {
        walls := walls + [WallBox(x, z)];
      } else if ch == 'X' {
        startPosition := Vec3(x as real, 0.5, z as real);
      } else if ch == 'O' {
        exit := Some(ExitBox(x, z));
      }
    }

    function GetStartPosition(): (p: Vec3)
      reads this
      ensures p == startPosition
    {
      startPosition
    }

    function GetWalls(): (w: seq<Box>)
      reads this
      ensures w == walls
    {
      walls
    }

    /** getExit: `None` stands for `undefined`, a rows without `O`. */
    function GetExit(): (e: Option<Box>)
      reads this
      ensures e == exit
    {
      exit
    }
  }

  /** A fresh level has one wall box per `*` of its rows. */
  lemma FreshWallCount(mapString: string)
    ensures var rows := MapRows(mapString);
            |WallsFrom(Cells(rows, |rows|))| == Stars(rows, |rows|)
  {
    var rows := MapRows(mapString);
    WallCount(rows, |rows|);
  }

  /** On a fresh level the start is the origin exactly when no `X` is on the
      map, and otherwise stands at the last `X` in scan order; likewise the
      exit exists exactly when an `O` is on the map. */
  lemma {:induction false} FreshStartAndExit(rows: seq<string>)
    ensures var cells := Cells(rows, |rows|);
            (forall j :: 0 <= j < |cells| ==> cells[j].c != 'O') <==> ExitAfter(cells, None).None?
    ensures var cells := Cells(rows, |rows|);
            (exists j :: 0 <= j < |cells| && cells[j].c == 'X') ==>
              exists z, x :: 0 <= z < |rows| && 0 <= x < |rows[z]| && rows[z][x] == 'X' &&
                             StartAfter(cells, Vec3(0.0, 0.0, 0.0)) == Vec3(x as real, 0.5, z as real)
    ensures var cells := Cells(rows, |rows|);
            (forall j :: 0 <= j < |cells| ==> cells[j].c != 'X') ==>
              StartAfter(cells, Vec3(0.0, 0.0, 0.0)) == Vec3(0.0, 0.0, 0.0)
    ensures var cells := Cells(rows, |rows|);
            (exists j :: 0 <= j < |cells| && cells[j].c == 'X') ==>
              exists i :: 0 <= i < |cells| && cells[i].c == 'X' &&
                          (forall j :: i < j < |cells| ==> cells[j].c != 'X') &&
                          StartAfter(cells, Vec3(0.0, 0.0, 0.0)) == Vec3(cells[i].x as real, 0.5, cells[i].z as real)
  {
    var cells := Cells(rows, |rows|);
    var last := LastWith(cells, 'O');
    if last.Some? {
      assert ExitAfter(cells, None) == Some(ExitBox(cells[last.value].x, cells[last.value].z));
    }
    var lx := LastWith(cells, 'X');
    if lx.Some? {
      var cl := cells[lx.value];
      assert rows[cl.z][cl.x] == 'X';
    }
  }
}
