/** The level editor (editor/editor.js): a rectangular grid of map
    characters that is created with a wall border, painted cell by cell,
    loaded from text, validated and written back as text. */
module Editor {
  import opened Common

  type Grid = seq<seq<char>>

  /** Every row has `w` cells. */
  predicate Rectangular(g: Grid, w: int)
  {
    forall y :: 0 <= y < |g| ==> |g[y]| == w
  }

  /** No cell holds a line break, so rows survive a join on '\n'. */
  predicate NoLineBreaks(g: Grid)
  {
    forall y :: 0 <= y < |g| ==> '\n' !in g[y]
  }

  /** A w x h grid with '*' on the first and last row and column, ' ' inside. */
  function EmptyMap(w: nat, h: nat): (g: Grid)
    ensures |g| == h && Rectangular(g, w)
    ensures forall y, x :: 0 <= y < h && 0 <= x < w ==>
              g[y][x] == (if y == 0 || y == h - 1 || x == 0 || x == w - 1 then '*' else ' ')
  {
    seq(h, y requires 0 <= y < h =>
      seq(w, x requires 0 <= x < w => if y == 0 || y == h - 1 || x == 0 || x == w - 1 then '*' else ' '))
  }

  /** The `data-type` a cell gets from its character; anything outside the
      table shows as floor. */
  datatype CellKind = Wall | Floor | Secret | Start | Exit | Boss | BossExit

  function KindOf(c: char): (k: CellKind)
    ensures k == Wall <==> c == '*'
    ensures k == Secret <==> c == '-'
    ensures k == Start <==> c == 'X'
    ensures k == Exit <==> c == 'O'
    ensures k == Boss <==> c == 'B'
    ensures k == BossExit <==> c == '0'
    ensures k == Floor <==> c !in {'*', '-', 'X', 'O', 'B', '0'}
  {
    match c
    case '*' => Wall
    case ' ' => Floor
    case '-' => Secret
    case 'X' => Start
    case 'O' => Exit
    case 'B' => Boss
    case '0' => BossExit
    case _ => Floor
  }

  /** The character each kind is drawn with in the table. */
  function KindChar(k: CellKind): (c: char)
  {
    match k
    case Wall => '*'
    case Floor => ' '
    case Secret => '-'
    case Start => 'X'
    case Exit => 'O'
    case Boss => 'B'
    case BossExit => '0'
  }

  /** The type table is one-to-one: every kind is reached from its own
      character, and every character that is not shown as floor is the
      character of its kind. */
  lemma KindTableInverse(k: CellKind, c: char)
    ensures KindOf(KindChar(k)) == k
    ensures KindOf(c) != Floor ==> KindChar(KindOf(c)) == c
  {
  }

  /** The text shown in a cell: empty for ' ', the character otherwise. */
  function CellText(c: char): (t: string)
    ensures c == ' ' ==> t == ""
    ensures c != ' ' ==> t == [c]
  {
    if c == ' ' then "" else [c]
  }

  /** `text.split('\n').filter(l => l.length > 0)`. */
  function NonEmpty(lines: seq<string>): (r: seq<string>)
    ensures forall i :: 0 <= i < |r| ==> |r[i]| > 0
    ensures forall l :: l in r <==> l in lines && |l| > 0
    ensures |r| <= |lines|
  {
    if |lines| == 0 then []
    else
      var rest := NonEmpty(lines[1..]);
      assert forall l :: l in lines <==> l == lines[0] || l in lines[1..];
      if |lines[0]| > 0 then [lines[0]] + rest else rest
  }

  /** `Math.max(...lines.map(l => l.length))` on a non-empty list. */
  function MaxLen(lines: seq<string>): (m: nat)
    requires |lines| > 0
    ensures forall i :: 0 <= i < |lines| ==> |lines[i]| <= m
    ensures exists i :: 0 <= i < |lines| && |lines[i]| == m
  {
    if |lines| == 1 then |lines[0]|
    else
      var rest := MaxLen(lines[1..]);
      assert forall i :: 1 <= i < |lines| ==> lines[i] == lines[1..][i - 1];
      if |lines[0]| >= rest then |lines[0]| else rest
  }

  /** `line.padEnd(w, ' ')`: the line, then spaces up to length w. */
  function PadEnd(line: string, w: nat): (r: string)
    ensures |r| == if |line| >= w then |line| else w
    ensures r[..|line|] == line
    ensures forall i :: |line| <= i < |r| ==> r[i] == ' '
  {
    if |line| >= w then line else line + seq(w - |line|, _ => ' ')
  }

  function PadAll(lines: seq<string>, w: nat): (g: Grid)
    ensures |g| == |lines|
    ensures forall y :: 0 <= y < |g| ==> g[y] == PadEnd(lines[y], w)
  {
    seq(|lines|, y requires 0 <= y < |lines| => PadEnd(lines[y], w))
  }

  /** The grid, width and height loadMapData takes from a text, or None
      when the text has no non-empty line. */
  datatype Loaded = Loaded(width: nat, height: nat, grid: Grid)

  function Parse(text: string): (r: Option<Loaded>)
    ensures r.None? <==> NonEmpty(Split(text, '\n')) == []
    ensures r.Some? ==> r.value.height == |r.value.grid| >= 1 && r.value.width >= 1
    ensures r.Some? ==> Rectangular(r.value.grid, r.value.width)
    ensures r.Some? ==>
              var ls := NonEmpty(Split(text, '\n'));
              |ls| == r.value.height > 0 && r.value.width == MaxLen(ls) &&
              forall y :: 0 <= y < |ls| ==> r.value.grid[y] == PadEnd(ls[y], r.value.width)
  {
    var lines := NonEmpty(Split(text, '\n'));
    if |lines| == 0 then None
    else
      var w := MaxLen(lines);
      assert |lines[0]| > 0;
      Some(Loaded(w, |lines|, PadAll(lines, w)))
  }

  /** The export text: the rows joined with '\n'. */
  function Serialize(g: Grid): (s: string)
    ensures |g| == 1 ==> s == g[0]
  {
    Join(g, '\n')
  }

  lemma {:induction false} NonEmptyKeepsAll(lines: seq<string>)
    requires forall i :: 0 <= i < |lines| ==> |lines[i]| > 0
    ensures NonEmpty(lines) == lines
  {
    if |lines| > 0 {
      NonEmptyKeepsAll(lines[1..]);
      assert [lines[0]] + lines[1..] == lines;
    }
  }

  lemma {:induction false} MaxLenOfRectangular(g: Grid, w: nat)
    requires |g| > 0 && Rectangular(g, w)
    ensures MaxLen(g) == w
  {
    var i :| 0 <= i < |g| && |g[i]| == MaxLen(g);
  }

  /** Exporting a grid and loading the text back restores the grid, its
      width and its height, for any grid at least one cell wide. */
  lemma SerializeParse(g: Grid, w: nat)
    requires |g| >= 1 && w >= 1 && Rectangular(g, w) && NoLineBreaks(g)
    ensures Parse(Serialize(g)) == Some(Loaded(w, |g|, g))
  {
    SplitJoin(g, '\n');
    assert Split(Serialize(g), '\n') == g;
    NonEmptyKeepsAll(g);
    MaxLenOfRectangular(g, w);
    PadAllRectangular(g, w);
  }

  lemma PadAllRectangular(g: Grid, w: nat)
    requires Rectangular(g, w)
    ensures PadAll(g, w) == g
  {
    var p := PadAll(g, w);
    forall y | 0 <= y < |g|
      ensures p[y] == g[y]
    {
      assert |g[y]| == w;
    }
  }

  /** Some row holds c. */
  predicate Holds(g: Grid, c: char)
  {
    exists y :: 0 <= y < |g| && c in g[y]
  }

  /** validateMap's verdict: a start is required; a map without an exit
      ('O' or '0') passes only if the user confirms. */
  function Exportable(g: Grid, confirmSave: bool): (ok: bool)
    ensures !Holds(g, 'X') ==> !ok
    ensures Holds(g, 'X') && (Holds(g, 'O') || Holds(g, '0')) ==> ok
    ensures Holds(g, 'X') && !Holds(g, 'O') && !Holds(g, '0') ==> (ok <==> confirmSave)
  {
    Holds(g, 'X') && (Holds(g, 'O') || Holds(g, '0') || confirmSave)
  }

  /** A new map has no start, so it cannot be exported until one is painted. */
  lemma EmptyMapInvalid(w: nat, h: nat, confirmSave: bool)
    ensures !Exportable(EmptyMap(w, h), confirmSave)
  {
    var g := EmptyMap(w, h);
    forall y | 0 <= y < h
      ensures 'X' !in g[y]
    {
      assert forall x :: 0 <= x < w ==> g[y][x] != 'X';
    }
  }

  /** The number of cells, row by row. */
  function CellCount(g: Grid): (n: nat)
  {
    if |g| == 0 then 0 else |g[0]| + CellCount(g[1..])
  }

  /** The tile count shown in the status bar, width x height, is the number
      of cells of a rectangular grid. */
  lemma {:induction false} TileCount(g: Grid, w: nat)
    requires Rectangular(g, w)
    ensures CellCount(g) == w * |g|
  {
    if |g| > 0 {
      TileCount(g[1..], w);
    }
  }

  /** `a >= b` on strings: lexicographic order of the characters. */
  predicate LexLeq(a: string, b: string)
    decreases |a|
  {
    |a| == 0 || (|b| > 0 && (a[0] < b[0] || (a[0] == b[0] && LexLeq(a[1..], b[1..]))))
  }

  predicate IsDigit(c: char)
  {
    '0' <= c <= '9'
  }

  /** The value of the leading decimal digits (`parseInt` on a string that
      starts with a digit). */
  function LeadingNumber(s: string, acc: nat): (n: nat)
    ensures n >= acc
    decreases |s|
  {
    if |s| == 0 || !IsDigit(s[0]) then acc
    else LeadingNumber(s[1..], acc * 10 + (s[0] as int - '0' as int))
  }

  /** The value of one decimal digit. */
  function DigitValue(c: char): (v: int)
    requires IsDigit(c)
    ensures 0 <= v <= 9
  {
    c as int - '0' as int
  }

  function Pow10(k: nat): (p: nat)
    ensures p >= 1
  {
    if k == 0 then 1 else 10 * Pow10(k - 1)
  }

  /** How many decimal digits `s` starts with. */
  function DigitRun(s: string): (k: nat)
    ensures k <= |s|
    ensures forall i :: 0 <= i < k ==> IsDigit(s[i])
    ensures k < |s| ==> !IsDigit(s[k])
    decreases |s|
  {
    if |s| == 0 || !IsDigit(s[0]) then 0 else 1 + DigitRun(s[1..])
  }

  /** The positional value of a string of decimal digits, read from its
      last (least significant) digit. */
  function DecimalValue(d: string): (v: nat)
    requires forall i :: 0 <= i < |d| ==> IsDigit(d[i])
    decreases |d|
  {
    if |d| == 0 then 0
    else 10 * DecimalValue(d[..|d| - 1]) + DigitValue(d[|d| - 1])
  }

  /** A leading digit weighs ten to the number of digits after it. */
  lemma {:induction false} DecimalCons(c: char, t: string)
    requires IsDigit(c)
    requires forall i :: 0 <= i < |t| ==> IsDigit(t[i])
    ensures DecimalValue([c] + t) == DigitValue(c) * Pow10(|t|) + DecimalValue(t)
    decreases |t|
  {
    var u := [c] + t;
    if |t| == 0 {
      assert u[..|u| - 1] == [];
    } else {
      var t' := t[..|t| - 1];
      assert u[..|u| - 1] == [c] + t';
      assert u[|u| - 1] == t[|t| - 1];
      DecimalCons(c, t');
      var dc, p := DigitValue(c), Pow10(|t'|);
      assert 10 * (dc * p) == dc * (10 * p);
    }
  }

  lemma ShiftDigit(acc: int, d: int, p: int)
    ensures (acc * 10 + d) * p == acc * (10 * p) + d * p
  {
  }

  /** `LeadingNumber(s, acc)` is `acc` shifted left by the leading digits of
      `s`, plus their decimal value: with `acc == 0` it is what `parseInt`
      reads from the front of `s`. */
  lemma {:induction false} LeadingNumberValue(s: string, acc: nat)
    ensures LeadingNumber(s, acc)
            == acc * Pow10(DigitRun(s)) + DecimalValue(s[..DigitRun(s)])
    decreases |s|
  {
    if |s| == 0 || !IsDigit(s[0]) {
      assert s[..0] == [];
    } else {
      var d0 := DigitValue(s[0]);
      var k := DigitRun(s[1..]);
      var p := Pow10(k);
      var rest := DecimalValue(s[1..][..k]);
      assert LeadingNumber(s, acc) == LeadingNumber(s[1..], acc * 10 + d0);
      LeadingNumberValue(s[1..], acc * 10 + d0);
      assert s[..k + 1] == [s[0]] + s[1..][..k];
      DecimalCons(s[0], s[1..][..k]);
      assert DecimalValue(s[..k + 1]) == d0 * p + rest;
      assert Pow10(k + 1) == 10 * p;
      ShiftDigit(acc, d0, p);
    }
  }

  /** The palette index a Ctrl/Meta hotkey selects: keys from "1" to "7" in
      string order give `parseInt(key) - 1`. */
  function HotkeyIndex(key: string): (r: Option<nat>)
    ensures r.Some? ==> LexLeq("1", key) && LexLeq(key, "7")
  {
    if LexLeq("1", key) && LexLeq(key, "7") then
      assert '1' <= key[0] <= '7';
      Some(LeadingNumber(key, 0) - 1)
    else None
  }

  /** A single-character key selects index d - 1 exactly when it is a digit
      d from 1 to 7. */
  lemma HotkeyDigits(c: char)
    ensures HotkeyIndex([c]).Some? <==> '1' <= c <= '7'
    ensures '1' <= c <= '7' ==> HotkeyIndex([c]) == Some(c as int - '1' as int)
  {
    assert [c][1..] == [];
    if '1' <= c <= '7' {
      assert LeadingNumber([c], 0) == LeadingNumber([], c as int - '0' as int);
    }
  }

  /** What exporting writes: the text and the file name for a floor. */
  datatype Export = Export(fileName: string, content: string)

  /** The body of the save-to-project request. */
  datatype SaveRequest = SaveRequest(floor: string, content: string)

  class DungeonEditor {
    var width: int
    var height: int
    var gridData: Grid
    var selectedChar: char
    var isDrawing: bool

    /** The grid is `height` rows of `width` cells, at least one of each, and
        holds no line break. */
    predicate Valid()
      reads this
    {
      width >= 1 && height >= 1 && |gridData| == height && Rectangular(gridData, width) &&
      NoLineBreaks(gridData) && selectedChar != '\n'
    }

    /** `new DungeonEditor()`: a 20 x 20 bordered map, painting walls. */
    constructor ()
      ensures Valid()
      ensures width == 20 && height == 20 && gridData == EmptyMap(20, 20)
      ensures selectedChar == '*' && !isDrawing
    {
      width := 20;
      height := 20;
      gridData := [];
      selectedChar := '*';
      isDrawing := false;
      new;
      CreateEmptyMap(20, 20);
    }

    /** createEmptyMap: fill with ' ', then draw the top and bottom rows,
        then the left and right columns, with '*'. The new-map dialog only
        calls it with positive sizes. */
    method CreateEmptyMap(w: int, h: int)
      requires w > 0 && h > 0
      requires selectedChar != '\n'
      modifies this`width, this`height, this`gridData
      ensures width == w && height == h && gridData == EmptyMap(w, h)
      ensures Valid()
    {
      width := w;
      height := h;
      gridData := seq(h, _ => seq(w, _ => ' '));
      var x := 0;
      while x < w
        invariant 0 <= x <= w
        invariant width == w && height == h
        invariant |gridData| == h && Rectangular(gridData, w)
        invariant forall p, q :: 0 <= p < h && 0 <= q < w ==>
                    gridData[p][q] == (if (p == 0 || p == h - 1) && q < x then '*' else ' ')
      {
        gridData := gridData[0 := gridData[0][x := '*']];
        gridData := gridData[h - 1 := gridData[h - 1][x := '*']];
        x := x + 1;
      }
      var y := 0;
      while y < h
        invariant 0 <= y <= h
        invariant width == w && height == h
        invariant |gridData| == h && Rectangular(gridData, w)
        invariant forall p, q :: 0 <= p < h && 0 <= q < w ==>
                    gridData[p][q] == (if p == 0 || p == h - 1 || ((q == 0 || q == w - 1) && p < y) then '*' else ' ')
      {
        gridData := gridData[y := gridData[y][0 := '*']];
        gridData := gridData[y := gridData[y][w - 1 := '*']];
        y := y + 1;
      }
      EmptyMapEquals(gridData, w, h);
      NoBreaksInEmptyMap(w, h);
    }

    /** The new-map dialog: the parsed sizes (None for NaN) must both be
        positive, otherwise nothing happens. */
    method NewMap(w: Option<int>, h: Option<int>) returns (created: bool)
      requires Valid()
      modifies this`width, this`height, this`gridData
      ensures Valid()
      ensures created <==> w.Some? && h.Some? && w.value > 0 && h.value > 0
      ensures created ==> width == w.value && height == h.value && gridData == EmptyMap(w.value, h.value)
      ensures !created ==> width == old(width) && height == old(height) && gridData == old(gridData)
    {
      if w.Some? && h.Some? && w.value > 0 && h.value > 0 {
        CreateEmptyMap(w.value, h.value);
        return true;
      }
      return false;
    }

    /** A palette click selects that tool's character. */
    method SelectTool(c: char)
      requires Valid() && c != '\n'
      modifies this`selectedChar
      ensures selectedChar == c && Valid()
    {
      selectedChar := c;
    }

    /** paintCell: cell (x, y) takes the selected character and no other
        cell changes; the cell then shows its text and type. */
    method PaintCell(x: int, y: int) returns (text: string, kind: CellKind)
      requires Valid() && 0 <= x < width && 0 <= y < height
      modifies this`gridData
      ensures Valid()
      ensures gridData == old(gridData)[y := old(gridData)[y][x := selectedChar]]
      ensures text == CellText(selectedChar) && kind == KindOf(selectedChar)
    {
      gridData := gridData[y := gridData[y][x := selectedChar]];
      text := CellText(selectedChar);
      kind := KindOf(selectedChar);
    }

    /** mousedown on a cell starts drawing and paints it; mouseup stops;
        mouseover paints only while drawing. */
    method OnMouseDown(x: int, y: int)
      requires Valid() && 0 <= x < width && 0 <= y < height
      modifies this`gridData, this`isDrawing
      ensures Valid() && isDrawing
      ensures gridData == old(gridData)[y := old(gridData)[y][x := selectedChar]]
    {
      isDrawing := true;
      var _, _ := PaintCell(x, y);
    }

    method OnMouseUp()
      modifies this`isDrawing
      ensures !isDrawing
    {
      isDrawing := false;
    }

    method OnMouseOver(x: int, y: int)
      requires Valid() && 0 <= x < width && 0 <= y < height
      modifies this`gridData
      ensures Valid()
      ensures gridData == if isDrawing then old(gridData)[y := old(gridData)[y][x := selectedChar]] else old(gridData)
    {
      if isDrawing {
        var _, _ := PaintCell(x, y);
      }
    }

    /** loadMapData: a text without a non-empty line changes nothing;
        otherwise its non-empty lines, padded with ' ' to the longest, become
        the grid. */
    method LoadMapData(text: string)
      requires Valid()
      modifies this`width, this`height, this`gridData
      ensures Valid()
      ensures Parse(text).None? ==> width == old(width) && height == old(height) && gridData == old(gridData)
      ensures Parse(text).Some? ==>
                width == Parse(text).value.width && height == Parse(text).value.height &&
                gridData == Parse(text).value.grid
    {
      var lines := NonEmpty(Split(text, '\n'));
      if |lines| == 0 {
        return;
      }
      height := |lines|;
      width := MaxLen(lines);
      gridData := PadAll(lines, width);
      LoadedHasNoBreaks(text);
    }

    /** validateMap: one pass over the cells looking for 'X' and for 'O' or
        '0'; `confirmSave` is the user's answer to the missing-exit question,
        asked only when there is no exit. */
    method ValidateMap(confirmSave: bool) returns (ok: bool)
      requires Valid()
      ensures ok == Exportable(gridData, confirmSave)
    {
      var hasStart := false;
      var hasExit := false;
      var y := 0;
      while y < height
        invariant 0 <= y <= height
        invariant hasStart == exists p :: 0 <= p < y && 'X' in gridData[p]
        invariant hasExit == exists p :: 0 <= p < y && ('O' in gridData[p] || '0' in gridData[p])
      {
        var row := gridData[y];
        var x := 0;
        ghost var startBefore := hasStart;
        ghost var exitBefore := hasExit;
        while x < width
          invariant 0 <= x <= width
          invariant hasStart == (startBefore || 'X' in row[..x])
          invariant hasExit == (exitBefore || 'O' in row[..x] || '0' in row[..x])
        {
          var ch := row[x];
          assert row[..x + 1] == row[..x] + [ch];
          if ch == 'X' {
            hasStart := true;
          }
          if ch == 'O' || ch == '0' {
            hasExit := true;
          }
          x := x + 1;
        }
        assert row[..width] == row;
        y := y + 1;
      }
      if !hasStart {
        return false;
      }
      if !hasExit {
        if !confirmSave {
          return false;
        }
      }
      return true;
    }

    /** exportMap: nothing when validation fails, otherwise the joined rows
        written to `level_<floor>.txt`. */
    method ExportMap(confirmSave: bool, floor: string) returns (out: Option<Export>)
      requires Valid()
      ensures out.None? <==> !Exportable(gridData, confirmSave)
      ensures out.Some? ==> out.value == Export("level_" + floor + ".txt", Serialize(gridData))
    {
      var ok := ValidateMap(confirmSave);
      if !ok {
        return None;
      }
      return Some(Export("level_" + floor + ".txt", Serialize(gridData)));
    }

    /** saveToProject: nothing when validation fails or no floor number is
        given, otherwise the request body to post. */
    method SaveToProject(confirmSave: bool, floor: string) returns (req: Option<SaveRequest>)
      requires Valid()
      ensures req.None? <==> !Exportable(gridData, confirmSave) || floor == ""
      ensures req.Some? ==> req.value == SaveRequest(floor, Serialize(gridData))
    {
      var ok := ValidateMap(confirmSave);
      if !ok {
        return None;
      }
      if floor == "" {
        return None;
      }
      return Some(SaveRequest(floor, Serialize(gridData)));
    }

    /** updateStats: the size label and the tile count. */
    function Stats(): (s: (int, int, int))
      reads this
      requires Valid()
      ensures s.0 == width && s.1 == height
      ensures s.2 == CellCount(gridData)
    {
      TileCount(gridData, width);
      (width, height, width * height)
    }

    /** The keydown hotkeys with Ctrl or Meta held: "1".."7" pick a palette
        tool when the palette has that many; "s" exports. */
    method OnHotkey(modifier: bool, key: string, palette: seq<char>, confirmSave: bool, floor: string)
      returns (out: Option<Export>)
      requires Valid() && forall i :: 0 <= i < |palette| ==> palette[i] != '\n'
      modifies this`selectedChar
      ensures Valid()
      ensures var k := HotkeyIndex(key);
              selectedChar == if modifier && k.Some? && k.value < |palette| then palette[k.value] else old(selectedChar)
      ensures modifier && key == "s" ==> out == (if Exportable(gridData, confirmSave)
                                                then Some(Export("level_" + floor + ".txt", Serialize(gridData))) else None)
      ensures !(modifier && key == "s") ==> out == None
    {
      out := None;
      if modifier {
        var k := HotkeyIndex(key);
        if k.Some? && k.value < |palette| {
          selectedChar := palette[k.value];
        }
        if key == "s" {
          out := ExportMap(confirmSave, floor);
        }
      }
    }
  }

  lemma EmptyMapEquals(g: Grid, w: nat, h: nat)
    requires |g| == h && Rectangular(g, w)
    requires forall p, q :: 0 <= p < h && 0 <= q < w ==>
               g[p][q] == (if p == 0 || p == h - 1 || ((q == 0 || q == w - 1) && p < h) then '*' else ' ')
    ensures g == EmptyMap(w, h)
  {
    var e := EmptyMap(w, h);
    forall p | 0 <= p < h
      ensures g[p] == e[p]
    {
    }
  }

  lemma NoBreaksInEmptyMap(w: nat, h: nat)
    ensures NoLineBreaks(EmptyMap(w, h))
  {
    var e := EmptyMap(w, h);
    forall y | 0 <= y < h
      ensures '\n' !in e[y]
    {
      assert forall x :: 0 <= x < w ==> e[y][x] != '\n';
    }
  }

  lemma LoadedHasNoBreaks(text: string)
    requires Parse(text).Some?
    ensures NoLineBreaks(Parse(text).value.grid)
  {
    var lines := NonEmpty(Split(text, '\n'));
    var g := Parse(text).value.grid;
    forall y | 0 <= y < |g|
      ensures '\n' !in g[y]
    {
      assert lines[y] in lines;
      assert lines[y] in Split(text, '\n');
      var line := lines[y];
      var padded := PadEnd(line, Parse(text).value.width);
      assert g[y] == padded;
      forall i | 0 <= i < |padded|
        ensures padded[i] != '\n'
      {
        if i < |line| {
          assert padded[i] == padded[..|line|][i] == line[i];
        }
      }
    }
  }
}
