/**
  The sheet memory: a grid of cell objects, stored column by column, with a "working"
  coordinate pair and access by label.
 */
module Memory {
  import opened Wrappers
  import opened GlobalDefinitions
  import opened Cells

  // ---------------------------------------------------------------------------
  // The grid as a value
  // ---------------------------------------------------------------------------

  /** A grid of cell contents, column-major: `cells[column][row]`. */
  datatype Sheet = Sheet(columns: nat, rows: nat, cells: seq<seq<CellState>>)

  predicate WellFormed(s: Sheet)
  {
    |s.cells| == s.columns && forall c :: 0 <= c < s.columns ==> |s.cells[c]| == s.rows
  }

  predicate InGrid(s: Sheet, c: int, r: int)
  {
    0 <= c < s.columns && 0 <= r < s.rows
  }

  /** The label names a cell of a grid of this shape. */
  predicate LabelInGrid(columns: nat, rows: nat, l: string)
  {
    CellToColumnRow(l).Success? &&
    0 <= CellToColumnRow(l).value.0 < columns && 0 <= CellToColumnRow(l).value.1 < rows
  }

  /** The label names a cell of the grid; reading any other label crashes the engine. */
  predicate HasLabel(s: Sheet, l: string)
  {
    LabelInGrid(s.columns, s.rows, l)
  }

  function Column(s: Sheet, l: string): nat
    requires HasLabel(s, l)
  {
    CellToColumnRow(l).value.0
  }

  function Row(s: Sheet, l: string): nat
    requires HasLabel(s, l)
  {
    CellToColumnRow(l).value.1
  }

  /** `getCellByLabel` on the value. */
  function Get(s: Sheet, l: string): CellState
    requires WellFormed(s) && HasLabel(s, l)
  {
    s.cells[Column(s, l)][Row(s, l)]
  }

  /** The grid with cell (c, r) replaced. */
  function Put(s: Sheet, c: int, r: int, x: CellState): (t: Sheet)
    requires WellFormed(s) && InGrid(s, c, r)
    ensures WellFormed(t) && t.columns == s.columns && t.rows == s.rows
  {
    s.(cells := s.cells[c := s.cells[c][r := x]])
  }

  /** `setCellByLabel` on the value. */
  function PutLabel(s: Sheet, l: string, x: CellState): (t: Sheet)
    requires WellFormed(s) && HasLabel(s, l)
    ensures WellFormed(t) && t.columns == s.columns && t.rows == s.rows
  {
    Put(s, Column(s, l), Row(s, l), x)
  }

  /** Putting back the cell a label already holds leaves the grid as it is. */
  lemma PutLabelSame(s: Sheet, l: string, x: CellState)
    requires WellFormed(s) && HasLabel(s, l) && Get(s, l) == x
    ensures PutLabel(s, l, x) == s
  {
    var c, r := Column(s, l), Row(s, l);
    assert s.cells[c][r := x] == s.cells[c];
    assert s.cells[c := s.cells[c]] == s.cells;
  }

  /** Two grids of the same shape are equal when they agree cell by cell. */
  lemma SheetExtensionality(s: Sheet, t: Sheet)
    requires WellFormed(s) && WellFormed(t) && s.columns == t.columns && s.rows == t.rows
    requires forall c, r :: InGrid(s, c, r) ==> s.cells[c][r] == t.cells[c][r]
    ensures s == t
  {
    forall c | 0 <= c < s.columns
      ensures s.cells[c] == t.cells[c]
    {
      assert forall r :: 0 <= r < s.rows ==> s.cells[c][r] == t.cells[c][r];
    }
  }

  /** The label of every grid cell names that cell. */
  lemma GridLabel(s: Sheet, c: nat, r: nat)
    requires InGrid(s, c, r)
    ensures HasLabel(s, ColumnRowToCell(c, r))
    ensures Column(s, ColumnRowToCell(c, r)) == c && Row(s, ColumnRowToCell(c, r)) == r
  {
    LabelRoundTrip(c, r);
  }

  /** A cell written by label is read back by that label, and no other cell changes. */
  lemma GetAfterPut(s: Sheet, l: string, x: CellState)
    requires WellFormed(s) && HasLabel(s, l)
    ensures Get(PutLabel(s, l, x), l) == x
    ensures forall c, r :: InGrid(s, c, r) && (c, r) != (Column(s, l), Row(s, l)) ==>
      PutLabel(s, l, x).cells[c][r] == s.cells[c][r]
  {
  }

  // ---------------------------------------------------------------------------
  // The grid as objects
  // ---------------------------------------------------------------------------

  class SheetMemory {
    const columns: nat
    const rows: nat
    var cells: seq<seq<Cell>>
    var currentColumn: int
    var currentRow: int

    /** The grid has the stated shape and no cell object sits in two places. */
    ghost predicate Valid()
      reads this
    {
      |cells| == columns && (forall c :: 0 <= c < columns ==> |cells[c]| == rows) &&
      forall c1, r1, c2, r2 ::
        (0 <= c1 < columns && 0 <= r1 < rows && 0 <= c2 < columns && 0 <= r2 < rows &&
         cells[c1][r1] == cells[c2][r2]) ==> c1 == c2 && r1 == r2
    }

    ghost function Repr(): set<Cell>
      reads this
    {
      set c, r | 0 <= c < |cells| && 0 <= r < |cells[c]| :: cells[c][r]
    }

    /** The contents of the grid. */
    ghost function View(): (s: Sheet)
      requires Valid()
      reads this, Repr()
      ensures WellFormed(s) && s.columns == columns && s.rows == rows
    {
      Sheet(columns, rows,
        seq(columns, c requires 0 <= c < |cells| && |cells[c]| == rows reads this, Repr() =>
          seq(rows, r requires 0 <= c < |cells| && 0 <= r < |cells[c]| reads this, Repr() =>
            cells[c][r].State())))
    }

    lemma ViewAt(c: int, r: int)
      requires Valid() && 0 <= c < columns && 0 <= r < rows
      ensures View().cells[c][r] == cells[c][r].State()
    {
    }

    method GetWorkingCellByCoordinates() returns (column: int, row: int)
      ensures column == currentColumn && row == currentRow
    {
      column, row := currentColumn, currentRow;
    }

    method SetWorkingCellByCoordinates(column: int, row: int)
      modifies this`currentColumn, this`currentRow
      ensures currentColumn == column && currentRow == row
    {
      currentRow := row;
      currentColumn := column;
    }

    /** Moves the working coordinates to a label; a label that is not letters then digits throws. */
    method SetWorkingCellByLabel(l: string) returns (outcome: Outcome)
      modifies this`currentColumn, this`currentRow
      ensures CellToColumnRow(l).Failure? ==>
        outcome == Fail("Invalid cell name") && currentColumn == old(currentColumn) && currentRow == old(currentRow)
      ensures CellToColumnRow(l).Success? ==>
        outcome == Pass && (currentColumn, currentRow) == CellToColumnRow(l).value
    {
      var coordinates := CellToColumnRow(l);
      if coordinates.Failure? {
        return Fail(coordinates.error);
      }
      var (column, row) := coordinates.value;
      SetWorkingCellByCoordinates(column, row);
      outcome := Pass;
    }

    /** Replaces the cell at the working coordinates. */
    method SetCurrentCell(cell: Cell)
      requires Valid() && 0 <= currentColumn < columns && 0 <= currentRow < rows
      requires cell !in Repr() || cell == cells[currentColumn][currentRow]
      modifies this`cells
      ensures Valid() && Repr() <= old(Repr()) + {cell}
      ensures View() == Put(old(View()), currentColumn, currentRow, cell.State())
    {
      SetCell(currentColumn, currentRow, cell);
    }

    method GetCurrentCell() returns (cell: Cell)
      requires Valid() && 0 <= currentColumn < columns && 0 <= currentRow < rows
      ensures cell == cells[currentColumn][currentRow]
      ensures cell.State() == View().cells[currentColumn][currentRow]
    {
      cell := cells[currentColumn][currentRow];
    }

    method GetCellByLabel(l: string) returns (cell: Cell)
      requires Valid() && LabelInGrid(columns, rows, l)
      ensures cell == cells[CellToColumnRow(l).value.0][CellToColumnRow(l).value.1]
      ensures cell.State() == Get(View(), l)
    {
      var (column, row) := CellToColumnRow(l).value;
      cell := cells[column][row];
    }

    /** Puts a cell object at a label; it must not already sit elsewhere in the grid. */
    method SetCellByLabel(l: string, cell: Cell)
      requires Valid() && LabelInGrid(columns, rows, l)
      requires cell !in Repr() || cell == cells[CellToColumnRow(l).value.0][CellToColumnRow(l).value.1]
      modifies this`cells
      ensures Valid() && Repr() <= old(Repr()) + {cell}
      ensures cell == old(cells[CellToColumnRow(l).value.0][CellToColumnRow(l).value.1]) ==> Repr() == old(Repr())
      ensures View() == PutLabel(old(View()), l, cell.State())
    {
      var (column, row) := CellToColumnRow(l).value;
      SetCell(column, row, cell);
    }

    /** The array assignment both setters perform. */
    method SetCell(column: int, row: int, cell: Cell)
      requires Valid() && 0 <= column < columns && 0 <= row < rows
      requires cell !in Repr() || cell == cells[column][row]
      modifies this`cells
      ensures Valid() && Repr() <= old(Repr()) + {cell}
      ensures cell == old(cells[column][row]) ==> Repr() == old(Repr())
      ensures cells[column][row] == cell
      ensures View() == Put(old(View()), column, row, cell.State())
    {
      cells := cells[column := cells[column][row := cell]];
      forall c1, r1, c2, r2 |
        0 <= c1 < columns && 0 <= r1 < rows && 0 <= c2 < columns && 0 <= r2 < rows &&
        cells[c1][r1] == cells[c2][r2]
        ensures c1 == c2 && r1 == r2
      {
        if (c1, r1) != (column, row) && (c2, r2) != (column, row) {
          assert old(cells[c1][r1]) == old(cells[c2][r2]);
        }
      }
      assert Valid();
      forall x | x in Repr()
        ensures x in old(Repr()) + {cell}
      {
        var c, r :| 0 <= c < |cells| && 0 <= r < |cells[c]| && x == cells[c][r];
        if (c, r) != (column, row) {
          assert old(cells[c][r]) == x;
        }
      }
      if cell == old(cells[column][row]) {
        assert cells[column] == old(cells[column]);
        assert cells == old(cells);
      }
      SheetExtensionality(View(), Put(old(View()), column, row, cell.State()));
    }

    method SetCurrentCellFormula(f: seq<string>)
      requires Valid() && 0 <= currentColumn < columns && 0 <= currentRow < rows
      modifies cells[currentColumn][currentRow]
      ensures Valid() && Repr() == old(Repr())
      ensures View() == Put(old(View()), currentColumn, currentRow,
        old(View()).cells[currentColumn][currentRow].(formula := f))
    {
      var workingCell := cells[currentColumn][currentRow];
      ghost var before := View();
      workingCell.SetFormula(f);
      forall c, r | 0 <= c < columns && 0 <= r < rows && (c, r) != (currentColumn, currentRow)
        ensures cells[c][r].State() == before.cells[c][r]
      {
      }
      ViewAfterChange(this, before, currentColumn, currentRow);
    }

    method GetCurrentCellFormula() returns (formula: seq<string>)
      requires Valid() && 0 <= currentColumn < columns && 0 <= currentRow < rows
      ensures formula == View().cells[currentColumn][currentRow].formula
    {
      formula := cells[currentColumn][currentRow].formula;
    }

    method SetCurrentCellValue(value: real)
      requires Valid() && 0 <= currentColumn < columns && 0 <= currentRow < rows
      modifies cells[currentColumn][currentRow]
      ensures Valid() && Repr() == old(Repr())
      ensures View() == Put(old(View()), currentColumn, currentRow,
        old(View()).cells[currentColumn][currentRow].(value := value))
    {
      var workingCell := cells[currentColumn][currentRow];
      ghost var before := View();
      workingCell.SetValue(value);
      forall c, r | 0 <= c < columns && 0 <= r < rows && (c, r) != (currentColumn, currentRow)
        ensures cells[c][r].State() == before.cells[c][r]
      {
      }
      ViewAfterChange(this, before, currentColumn, currentRow);
    }

    /** What each cell shows, column-major. */
    method GetSheetDisplayStrings() returns (displayStrings: seq<seq<Display>>)
      requires Valid()
      ensures |displayStrings| == columns
      ensures forall c :: 0 <= c < columns ==> |displayStrings[c]| == rows
      ensures forall c, r :: 0 <= c < columns && 0 <= r < rows ==>
        displayStrings[c][r] == DisplayString(View().cells[c][r])
    {
      displayStrings := [];
      for column := 0 to columns
        invariant |displayStrings| == column
        invariant forall c :: 0 <= c < column ==> |displayStrings[c]| == rows
        invariant forall c, r :: 0 <= c < column && 0 <= r < rows ==>
          displayStrings[c][r] == DisplayString(View().cells[c][r])
      {
        var line: seq<Display> := [];
        for row := 0 to rows
          invariant |line| == row
          invariant forall r :: 0 <= r < row ==> line[r] == DisplayString(View().cells[column][r])
        {
          var displayString := cells[column][row].GetDisplayString();
          line := line + [displayString];
        }
        displayStrings := displayStrings + [line];
      }
    }

    /** The storable form of the sheet: its shape and each cell's formula, value and error. */
    method SheetContainer() returns (container: Container)
      requires Valid()
      ensures container == ContainerOf(View())
    {
      var entries: map<string, CellTransport> := map[];
      for column := 0 to columns
        invariant entries == Entries(View(), column, 0)
      {
        for row := 0 to rows
          invariant entries == Entries(View(), column, row)
        {
          var cell := cells[column][row];
          var l := ColumnRowToCell(column, row);
          entries := entries[l := CellTransport(cell.formula, cell.value, cell.error)];
        }
      }
      container := Container(columns, rows, entries);
    }

    /**
      Loads a stored sheet: every listed label gets a fresh cell holding the stored formula,
      value and error (no references, no label). A stored shape that differs throws.
      `keys` is the order in which the stored labels are visited.
     */
    method UpdateSheetFromJSON(container: Container, keys: seq<string>) returns (outcome: Outcome)
      requires Valid()
      requires forall k :: k in keys ==> k in container.cells
      requires container.columns == columns && container.rows == rows ==>
        forall k :: k in keys ==> LabelInGrid(columns, rows, k)
      modifies this`cells
      ensures Valid() && fresh(Repr() - old(Repr()))
      ensures container.columns != columns || container.rows != rows ==>
        outcome == Fail("The JSON string does not match the current sheet") && View() == old(View())
      ensures container.columns == columns && container.rows == rows ==>
        outcome == Pass && View() == LoadCells(old(View()), container.cells, keys)
    {
      if container.columns != columns || container.rows != rows {
        return Fail("The JSON string does not match the current sheet");
      }
      LoadEntries(container.cells, keys);
      outcome := Pass;
    }

    /** The loop of `updateSheetFromJSON`: each stored label in turn gets a new cell built from its entry. */
    method LoadEntries(entries: map<string, CellTransport>, keys: seq<string>)
      requires Valid() && forall k :: k in keys ==> k in entries && LabelInGrid(columns, rows, k)
      modifies this`cells
      ensures Valid() && fresh(Repr() - old(Repr()))
      ensures View() == LoadCells(old(View()), entries, keys)
    {
      ghost var s := View();
      for i := 0 to |keys|
        invariant Valid() && fresh(Repr() - old(Repr()))
        invariant View() == LoadCells(s, entries, keys[..i])
      {
        LoadEntry(s, entries, keys, i);
      }
      assert keys[..|keys|] == keys;
    }

    /** One turn of that loop: the cell at keys[i] is replaced by a new one built from its entry. */
    method LoadEntry(ghost s: Sheet, entries: map<string, CellTransport>, keys: seq<string>, i: nat)
      requires Valid() && WellFormed(s) && s.columns == columns && s.rows == rows
      requires i < |keys| && forall k :: k in keys ==> k in entries && HasLabel(s, k)
      requires View() == LoadCells(s, entries, keys[..i])
      modifies this`cells
      ensures Valid() && fresh(Repr() - old(Repr()))
      ensures View() == LoadCells(s, entries, keys[..i + 1])
    {
      var l := keys[i];
      var cell := CellFromTransport(entries[l]);
      LoadCellsStep(s, entries, keys, i);
      SetCellByLabel(l, cell);
    }

    /** A new sheet of the stored shape with the stored cells loaded into it. */
    static method CreateSheetFromJSON(container: Container, keys: seq<string>) returns (sheet: SheetMemory)
      requires forall k :: k in keys ==> k in container.cells && LabelInGrid(container.columns, container.rows, k)
      ensures fresh(sheet) && fresh(sheet.Repr()) && sheet.Valid()
      ensures sheet.View() == LoadCells(NewSheet(container.columns, container.rows), container.cells, keys)
      ensures sheet.currentColumn == 0 && sheet.currentRow == 0
    {
      sheet := new SheetMemory(container.columns, container.rows);
      var outcome := sheet.UpdateSheetFromJSON(container, keys);
    }

    constructor(cols: nat, rs: nat)
      ensures Valid() && fresh(Repr())
      ensures View() == NewSheet(cols, rs)
      ensures currentColumn == 0 && currentRow == 0
    {
      columns := cols;
      rows := rs;
      currentColumn := 0;
      currentRow := 0;
      var grid: seq<seq<Cell>> := [];
      for column := 0 to cols
        invariant |grid| == column
        invariant forall c :: 0 <= c < column ==> |grid[c]| == rs
        invariant forall c, r :: 0 <= c < column && 0 <= r < rs ==> fresh(grid[c][r])
        invariant forall c, r :: 0 <= c < column && 0 <= r < rs ==>
          grid[c][r].State() == EmptyCell.(cellLabel := ColumnRowToCell(c, r))
        invariant forall c1, r1, c2, r2 ::
          (0 <= c1 < column && 0 <= r1 < rs && 0 <= c2 < column && 0 <= r2 < rs &&
           grid[c1][r1] == grid[c2][r2]) ==> c1 == c2 && r1 == r2
      {
        var line := NewColumn(column, rs);
        grid := grid + [line];
      }
      cells := grid;
      new;
      SheetExtensionality(View(), NewSheet(cols, rs));
    }
  }

  // ---------------------------------------------------------------------------
  // The storable form
  // ---------------------------------------------------------------------------

  /** A stored sheet: its shape and, per label, a cell's formula, value and error. */
  datatype Container = Container(columns: nat, rows: nat, cells: map<string, CellTransport>)

  function Transport(cell: CellState): CellTransport
  {
    CellTransport(cell.formula, cell.value, cell.error)
  }

  /** The fresh cell a stored entry is loaded into. */
  function FromTransport(t: CellTransport): CellState
  {
    EmptyCell.(formula := t.formula, value := t.value, error := t.error)
  }

  /**
    The entries of every cell in the columns before `column` and of the first `row` cells
    of `column`, written in the order the sheet is walked: column by column, top to bottom.
   */
  function Entries(s: Sheet, column: nat, row: nat): map<string, CellTransport>
    requires WellFormed(s) && column <= s.columns && row <= s.rows && (column == s.columns ==> row == 0)
    decreases column, row
  {
    if row == 0 then
      if column == 0 then map[] else Entries(s, column - 1, s.rows)
    else
      Entries(s, column, row - 1)[ColumnRowToCell(column, row - 1) := Transport(s.cells[column][row - 1])]
  }

  /** The stored form of a sheet. */
  function ContainerOf(s: Sheet): Container
    requires WellFormed(s)
  {
    Container(s.columns, s.rows, Entries(s, s.columns, 0))
  }

  /** Cell (c, r) comes before the walk position (column, row). */
  predicate Before(c: int, r: int, column: nat, row: nat)
  {
    c < column || (c == column && r < row)
  }

  /** The walk so far holds the label of every cell it passed, with that cell's entry ... */
  lemma {:induction false} EntriesHas(s: Sheet, column: nat, row: nat)
    requires WellFormed(s) && column <= s.columns && row <= s.rows && (column == s.columns ==> row == 0)
    ensures forall c: nat, r: nat :: InGrid(s, c, r) && Before(c, r, column, row) ==>
      ColumnRowToCell(c, r) in Entries(s, column, row) &&
      Entries(s, column, row)[ColumnRowToCell(c, r)] == Transport(s.cells[c][r])
    decreases column, row
  {
    if row == 0 {
      if column > 0 {
        EntriesHas(s, column - 1, s.rows);
      }
    } else {
      EntriesHas(s, column, row - 1);
      var e := Entries(s, column, row);
      forall c: nat, r: nat | InGrid(s, c, r) && Before(c, r, column, row)
        ensures ColumnRowToCell(c, r) in e && e[ColumnRowToCell(c, r)] == Transport(s.cells[c][r])
      {
        if (c, r) != (column, row - 1) {
          LabelsDistinct(c, r, column, row - 1);
        }
      }
    }
  }

  /** ... and nothing else: every key is the label of a cell visited before (column, row). */
  lemma {:induction false} EntriesOnly(s: Sheet, column: nat, row: nat)
    requires WellFormed(s) && column <= s.columns && row <= s.rows && (column == s.columns ==> row == 0)
    ensures forall l :: l in Entries(s, column, row) ==>
      exists c: nat, r: nat :: InGrid(s, c, r) && Before(c, r, column, row) && l == ColumnRowToCell(c, r)
    decreases column, row
  {
    if row == 0 {
      if column > 0 {
        EntriesOnly(s, column - 1, s.rows);
      }
    } else {
      EntriesOnly(s, column, row - 1);
      var e := Entries(s, column, row);
      forall l | l in e
        ensures exists c: nat, r: nat :: InGrid(s, c, r) && Before(c, r, column, row) && l == ColumnRowToCell(c, r)
      {
        if l != ColumnRowToCell(column, row - 1) {
          assert l in Entries(s, column, row - 1);
          var c: nat, r: nat :| InGrid(s, c, r) && Before(c, r, column, row - 1) && l == ColumnRowToCell(c, r);
          assert Before(c, r, column, row);
        } else {
          assert InGrid(s, column, row - 1) && Before(column, row - 1, column, row);
        }
      }
    }
  }

  /** The stored form lists exactly the canonical label of every grid cell, with that cell's entry. */
  lemma ContainerOfContents(s: Sheet)
    requires WellFormed(s)
    ensures ContainerOf(s).columns == s.columns && ContainerOf(s).rows == s.rows
    ensures forall c: nat, r: nat :: InGrid(s, c, r) ==>
      ColumnRowToCell(c, r) in ContainerOf(s).cells &&
      ContainerOf(s).cells[ColumnRowToCell(c, r)] == Transport(s.cells[c][r])
    ensures forall l :: l in ContainerOf(s).cells <==>
      exists c: nat, r: nat :: InGrid(s, c, r) && l == ColumnRowToCell(c, r)
  {
    EntriesHas(s, s.columns, 0);
    EntriesOnly(s, s.columns, 0);
  }

  /** Load the listed entries into the grid, in the order listed. */
  function LoadCells(s: Sheet, entries: map<string, CellTransport>, keys: seq<string>): (t: Sheet)
    requires WellFormed(s) && forall k :: k in keys ==> k in entries && HasLabel(s, k)
    ensures WellFormed(t) && t.columns == s.columns && t.rows == s.rows
  {
    if keys == [] then s
    else
      var l := keys[|keys| - 1];
      var t := LoadCells(s, entries, keys[..|keys| - 1]);
      assert l in keys;
      assert HasLabel(s, l);
      assert t.columns == s.columns && t.rows == s.rows;
      PutLabel(t, l, FromTransport(entries[l]))
  }

  /** A fresh cell holding a stored entry's formula, value and error. */
  method CellFromTransport(cellObject: CellTransport) returns (cell: Cell)
    ensures fresh(cell) && cell.State() == FromTransport(cellObject)
  {
    cell := new Cell();
    cell.SetFormula(cellObject.formula);
    cell.SetValue(cellObject.value);
    cell.SetError(cellObject.error);
  }

  /** Loading one more key puts its entry into the grid loaded so far. */
  lemma LoadCellsStep(s: Sheet, entries: map<string, CellTransport>, keys: seq<string>, i: nat)
    requires WellFormed(s) && i < |keys| && forall k :: k in keys ==> k in entries && HasLabel(s, k)
    ensures forall k :: k in keys[..i] ==> k in entries && HasLabel(s, k)
    ensures forall k :: k in keys[..i + 1] ==> k in entries && HasLabel(s, k)
    ensures keys[i] in entries && HasLabel(LoadCells(s, entries, keys[..i]), keys[i])
    ensures LoadCells(s, entries, keys[..i + 1]) ==
      PutLabel(LoadCells(s, entries, keys[..i]), keys[i], FromTransport(entries[keys[i]]))
  {
    assert forall k :: k in keys[..i + 1] ==> k in keys;
    assert forall k :: k in keys[..i] ==> k in keys;
    assert keys[i] in keys;
    assert keys[..i + 1][..i] == keys[..i];
  }

  /** When every cell but (c, r) still holds what `before` records, the view differs from `before` at (c, r) only. */
  lemma ViewAfterChange(m: SheetMemory, before: Sheet, c: int, r: int)
    requires m.Valid() && WellFormed(before) && before.columns == m.columns && before.rows == m.rows
    requires 0 <= c < m.columns && 0 <= r < m.rows
    requires forall c', r' :: 0 <= c' < m.columns && 0 <= r' < m.rows && (c', r') != (c, r) ==>
      m.cells[c'][r'].State() == before.cells[c'][r']
    ensures m.View() == Put(before, c, r, m.cells[c][r].State())
  {
    SheetExtensionality(m.View(), Put(before, c, r, m.cells[c][r].State()));
  }

  /** Every entry sits at a label of the grid and holds the stored form of the cell there. */
  predicate StoredFrom(s: Sheet, entries: map<string, CellTransport>)
    requires WellFormed(s)
  {
    forall k :: k in entries ==> HasLabel(s, k) && entries[k] == Transport(Get(s, k))
  }

  /** The label addresses grid cell (c, r). */
  predicate Addresses(s: Sheet, l: string, c: int, r: int)
  {
    HasLabel(s, l) && Column(s, l) == c && Row(s, l) == r
  }

  lemma ContainerOfStoredFrom(s: Sheet)
    requires WellFormed(s)
    ensures StoredFrom(s, ContainerOf(s).cells)
  {
    ContainerOfContents(s);
    forall k | k in ContainerOf(s).cells
      ensures HasLabel(s, k) && ContainerOf(s).cells[k] == Transport(Get(s, k))
    {
      var c: nat, r: nat :| InGrid(s, c, r) && k == ColumnRowToCell(c, r);
      GridLabel(s, c, r);
    }
  }

  /**
    Loading entries stored from `s` into a grid of the same shape leaves each cell either
    untouched, when no listed key addresses it, or a fresh cell holding the entry of `s` there.
   */
  lemma {:induction false} LoadCellsAt(t: Sheet, s: Sheet, entries: map<string, CellTransport>, keys: seq<string>, c: int, r: int)
    requires WellFormed(s) && WellFormed(t) && t.columns == s.columns && t.rows == s.rows
    requires StoredFrom(s, entries) && forall k :: k in keys ==> k in entries
    requires InGrid(s, c, r)
    ensures (exists k :: k in keys && Addresses(s, k, c, r)) ==>
      LoadCells(t, entries, keys).cells[c][r] == FromTransport(Transport(s.cells[c][r]))
    ensures (forall k :: k in keys ==> !Addresses(s, k, c, r)) ==>
      LoadCells(t, entries, keys).cells[c][r] == t.cells[c][r]
  {
    if keys != [] {
      var init := keys[..|keys| - 1];
      var l := keys[|keys| - 1];
      assert forall k :: k in init ==> k in keys;
      assert l in keys && HasLabel(s, l);
      LoadCellsAt(t, s, entries, init, c, r);
      var u := LoadCells(t, entries, init);
      assert LoadCells(t, entries, keys) == PutLabel(u, l, FromTransport(entries[l]));
      PutLabelAt(u, l, FromTransport(entries[l]), c, r);
      if !Addresses(s, l, c, r) {
        forall k | k in keys && Addresses(s, k, c, r)
          ensures k in init
        {
          assert k == l || k in init;
        }
      }
    }
  }

  /** Cell (c, r) after a write at a label: the written cell if the label addresses it, else unchanged. */
  lemma PutLabelAt(s: Sheet, l: string, x: CellState, c: int, r: int)
    requires WellFormed(s) && HasLabel(s, l) && InGrid(s, c, r)
    ensures PutLabel(s, l, x).cells[c][r] == if Column(s, l) == c && Row(s, l) == r then x else s.cells[c][r]
  {
  }

  /**
    The document round trip: storing a sheet and loading every stored label into a grid of
    the same shape gives back each cell's formula, value and error; the loaded cells carry
    no references and no label.
   */
  lemma LoadContainerRoundTrip(t: Sheet, s: Sheet, keys: seq<string>)
    requires WellFormed(s) && WellFormed(t) && t.columns == s.columns && t.rows == s.rows
    requires forall k :: k in keys <==> k in ContainerOf(s).cells
    ensures forall k :: k in keys ==> HasLabel(t, k)
    ensures forall c, r :: InGrid(s, c, r) ==>
      var loaded := LoadCells(t, ContainerOf(s).cells, keys).cells[c][r];
      Transport(loaded) == Transport(s.cells[c][r]) && loaded.dependsOn == [] && loaded.cellLabel == ""
  {
    ContainerOfStoredFrom(s);
    ContainerOfContents(s);
    forall c, r | InGrid(s, c, r)
      ensures LoadCells(t, ContainerOf(s).cells, keys).cells[c][r] == FromTransport(Transport(s.cells[c][r]))
    {
      GridLabel(s, c, r);
      assert ColumnRowToCell(c, r) in keys && Addresses(s, ColumnRowToCell(c, r), c, r);
      LoadCellsAt(t, s, ContainerOf(s).cells, keys, c, r);
    }
  }

  /** The inner loop of the constructor: the fresh cells of one column. */
  method NewColumn(column: nat, rows: nat) returns (line: seq<Cell>)
    ensures |line| == rows
    ensures forall r :: 0 <= r < rows ==> fresh(line[r])
    ensures forall r :: 0 <= r < rows ==> line[r].State() == EmptyCell.(cellLabel := ColumnRowToCell(column, r))
    ensures forall r1, r2 :: 0 <= r1 < r2 < rows ==> line[r1] != line[r2]
  {
    line := [];
    for row := 0 to rows
      invariant |line| == row
      invariant forall r :: 0 <= r < row ==> fresh(line[r])
      invariant forall r :: 0 <= r < row ==> line[r].State() == EmptyCell.(cellLabel := ColumnRowToCell(column, r))
      invariant forall r1, r2 :: 0 <= r1 < r2 < row ==> line[r1] != line[r2]
    {
      var cell := new Cell();
      cell.SetLabel(ColumnRowToCell(column, row));
      line := line + [cell];
    }
  }

  /** A new grid: every cell empty and labelled with its own label. */
  function NewSheet(columns: nat, rows: nat): (s: Sheet)
    ensures WellFormed(s) && s.columns == columns && s.rows == rows
    ensures forall c, r :: InGrid(s, c, r) ==> s.cells[c][r] == EmptyCell.(cellLabel := ColumnRowToCell(c, r))
  {
    Sheet(columns, rows,
      seq(columns, c requires 0 <= c => seq(rows, r requires 0 <= r => EmptyCell.(cellLabel := ColumnRowToCell(c, r)))))
  }
}
