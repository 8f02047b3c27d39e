/**
  The calculation manager: it rebuilds every cell's references from its formula, checks
  that a new reference would not close a cycle, orders the cells so that each one comes
  after the cells it refers to, and recomputes the sheet in that order. It keeps no state
  of its own, so its operations are methods over a sheet memory.
 */
module Calculation {
  import opened Wrappers
  import opened GlobalDefinitions
  import opened Cells
  import opened Formulas
  import opened Memory
  import opened Evaluation

  // ---------------------------------------------------------------------------
  // Rebuilding the references
  // ---------------------------------------------------------------------------

  /** A cell whose references are read again from its formula. */
  function Refresh(cell: CellState): CellState
  {
    cell.(dependsOn := CellReferences(cell.formula))
  }

  /** The grid with every cell before walk position (column, row) refreshed. */
  function RefreshedTo(s: Sheet, column: nat, row: nat): (t: Sheet)
    requires WellFormed(s)
    ensures WellFormed(t) && t.columns == s.columns && t.rows == s.rows
  {
    Sheet(s.columns, s.rows,
      seq(s.columns, c requires 0 <= c < |s.cells| && |s.cells[c]| == s.rows =>
        seq(s.rows, r requires 0 <= c < |s.cells| && 0 <= r < |s.cells[c]| =>
          if Before(c, r, column, row) then Refresh(s.cells[c][r]) else s.cells[c][r])))
  }

  /** What `updateDependencies` makes of a grid. */
  function WithDependencies(s: Sheet): (t: Sheet)
    requires WellFormed(s)
    ensures WellFormed(t) && t.columns == s.columns && t.rows == s.rows
  {
    RefreshedTo(s, s.columns, 0)
  }

  /** Every cell's references are those of its formula. */
  predicate DependenciesCurrent(s: Sheet)
    requires WellFormed(s)
  {
    forall c, r :: 0 <= c < s.columns && 0 <= r < s.rows ==> s.cells[c][r].dependsOn == CellReferences(s.cells[c][r].formula)
  }

  /**
    After `updateDependencies` every cell's references are those of its formula, nothing else
    of any cell has changed, and on a grid that was already up to date it changes nothing.
   */
  lemma WithDependenciesCurrent(s: Sheet)
    requires WellFormed(s)
    ensures DependenciesCurrent(WithDependencies(s))
    ensures forall c, r :: InGrid(s, c, r) ==>
      WithDependencies(s).cells[c][r].(dependsOn := s.cells[c][r].dependsOn) == s.cells[c][r]
    ensures DependenciesCurrent(s) ==> WithDependencies(s) == s
  {
    if DependenciesCurrent(s) {
      SheetExtensionality(WithDependencies(s), s);
    }
  }

  /** Each reference is a valid label, listed once. */
  lemma WithDependenciesValidLabels(s: Sheet)
    requires WellFormed(s)
    ensures forall c, r :: InGrid(s, c, r) ==>
      NoDuplicates(WithDependencies(s).cells[c][r].dependsOn) &&
      forall d :: d in WithDependencies(s).cells[c][r].dependsOn <==> d in s.cells[c][r].formula && IsValidCellLabel(d)
  {
    forall c, r | InGrid(s, c, r)
      ensures NoDuplicates(WithDependencies(s).cells[c][r].dependsOn)
      ensures forall d :: d in WithDependencies(s).cells[c][r].dependsOn <==> d in s.cells[c][r].formula && IsValidCellLabel(d)
    {
      CellReferencesMembers(s.cells[c][r].formula);
    }
  }

  /** One more cell of the walk refreshed. */
  lemma RefreshedToStep(s: Sheet, column: nat, row: nat)
    requires WellFormed(s) && column < s.columns && row < s.rows
    ensures RefreshedTo(s, column, row + 1) ==
      Put(RefreshedTo(s, column, row), column, row, Refresh(s.cells[column][row]))
  {
    SheetExtensionality(RefreshedTo(s, column, row + 1),
      Put(RefreshedTo(s, column, row), column, row, Refresh(s.cells[column][row])));
  }

  /** The end of one column is the start of the next. */
  lemma RefreshedToNextColumn(s: Sheet, column: nat)
    requires WellFormed(s) && column < s.columns
    ensures RefreshedTo(s, column, s.rows) == RefreshedTo(s, column + 1, 0)
  {
    SheetExtensionality(RefreshedTo(s, column, s.rows), RefreshedTo(s, column + 1, 0));
  }

  /** `updateDependencies`: set every cell's references to those of its formula, column by column. */
  method UpdateDependencies(m: SheetMemory)
    requires m.Valid()
    modifies m`cells, m.Repr()
    ensures m.Valid() && m.Repr() == old(m.Repr())
    ensures m.View() == WithDependencies(old(m.View()))
  {
    ghost var s := m.View();
    RefreshedToStart(s);
    for column := 0 to m.columns
      invariant m.Valid() && m.Repr() == old(m.Repr())
      invariant m.View() == RefreshedTo(s, column, 0)
    {
      RefreshColumn(m, column, s);
    }
  }

  /** Before the walk starts nothing is refreshed. */
  lemma RefreshedToStart(s: Sheet)
    requires WellFormed(s)
    ensures RefreshedTo(s, 0, 0) == s
  {
    SheetExtensionality(s, RefreshedTo(s, 0, 0));
  }

  /** The inner loop of `updateDependencies`: the cells of one column, top to bottom. */
  method RefreshColumn(m: SheetMemory, column: nat, ghost s: Sheet)
    requires m.Valid() && column < m.columns
    requires WellFormed(s) && s.columns == m.columns && s.rows == m.rows && m.View() == RefreshedTo(s, column, 0)
    modifies m`cells, m.Repr()
    ensures m.Valid() && m.Repr() == old(m.Repr())
    ensures m.View() == RefreshedTo(s, column + 1, 0)
  {
    for row := 0 to m.rows
      invariant m.Valid() && m.Repr() == old(m.Repr())
      invariant m.View() == RefreshedTo(s, column, row)
    {
      RefreshCell(m, column, row);
      RefreshedToStep(s, column, row);
    }
    RefreshedToNextColumn(s, column);
  }

  /** The body of the loops of `updateDependencies`: one cell's references rebuilt and stored back. */
  method RefreshCell(m: SheetMemory, column: nat, row: nat)
    requires m.Valid() && column < m.columns && row < m.rows
    modifies m`cells, m.Repr()
    ensures m.Valid() && m.Repr() == old(m.Repr())
    ensures m.View() == Put(old(m.View()), column, row, Refresh(old(m.View()).cells[column][row]))
  {
    var l := ColumnRowToCell(column, row);
    LabelRoundTrip(column, row);
    var cell := m.GetCellByLabel(l);
    RefreshObject(m, cell, column, row);
    ghost var after := m.View();
    m.SetCellByLabel(l, cell);
    PutLabelSame(after, l, cell.State());
  }

  /** `cell.setDependsOn(...)` on the cell object at the coordinates, seen through the grid. */
  method RefreshObject(m: SheetMemory, cell: Cell, column: nat, row: nat)
    requires m.Valid() && column < m.columns && row < m.rows && cell == m.cells[column][row]
    modifies cell`dependsOn
    ensures m.Valid() && m.Repr() == old(m.Repr())
    ensures m.View() == Put(old(m.View()), column, row, Refresh(old(m.View()).cells[column][row]))
  {
    ghost var before := m.View();
    var deps := FormulaBuilder.GetCellReferences(cell.formula);
    cell.SetDependsOn(deps);
    forall c, r | 0 <= c < m.columns && 0 <= r < m.rows && (c, r) != (column, row)
      ensures m.cells[c][r].State() == before.cells[c][r]
    { }
    ViewAfterChange(m, before, column, row);
  }

  // ---------------------------------------------------------------------------
  // The computation order: the partition
  // ---------------------------------------------------------------------------

  /** The label the grid gives the cell it names. */
  predicate IsGridLabel(s: Sheet, x: string)
  {
    HasLabel(s, x) && x == ColumnRowToCell(Column(s, x), Row(s, x))
  }

  /** Cell a comes before cell b in the walk over the grid, column by column. */
  predicate WalkBefore(s: Sheet, a: string, b: string)
  {
    HasLabel(s, a) && HasLabel(s, b) && Before(Column(s, a), Row(s, a), Column(s, b), Row(s, b))
  }

  /** The walk position (column, row) lies within the walk of the grid. */
  predicate WalkPosition(s: Sheet, column: nat, row: nat)
  {
    column <= s.columns && row <= s.rows && (column == s.columns ==> row == 0)
  }

  /**
    The cells before walk position (column, row) that have no references, and those that
    have some, each in walk order.
   */
  function Partition(s: Sheet, column: nat, row: nat): (seq<string>, seq<string>)
    requires WellFormed(s) && WalkPosition(s, column, row)
    decreases column, row
  {
    if row == 0 then
      if column == 0 then ([], []) else Partition(s, column - 1, s.rows)
    else
      var (independent, toProcess) := Partition(s, column, row - 1);
      var l := ColumnRowToCell(column, row - 1);
      if |s.cells[column][row - 1].dependsOn| == 0 then (independent + [l], toProcess)
      else (independent, toProcess + [l])
  }

  function IndependentCells(s: Sheet): seq<string>
    requires WellFormed(s)
  {
    Partition(s, s.columns, 0).0
  }

  function CellsToBeProcessed(s: Sheet): seq<string>
    requires WellFormed(s)
  {
    Partition(s, s.columns, 0).1
  }

  /** The labels hold the cells of the walk up to (column, row), in walk order, each once. */
  predicate WalkOrdered(s: Sheet, labels: seq<string>, column: nat, row: nat)
  {
    NoDuplicates(labels) &&
    (forall x :: x in labels ==> IsGridLabel(s, x) && Before(Column(s, x), Row(s, x), column, row)) &&
    (forall i, j :: 0 <= i < j < |labels| ==> WalkBefore(s, labels[i], labels[j]))
  }

  /** A label after every label of a walk-ordered list can be appended to it. */
  lemma WalkOrderedAppend(s: Sheet, labels: seq<string>, column: nat, row: nat)
    requires WellFormed(s) && InGrid(s, column, row) && WalkOrdered(s, labels, column, row)
    ensures WalkOrdered(s, labels + [ColumnRowToCell(column, row)], column, row + 1)
  {
    var l := ColumnRowToCell(column, row);
    GridLabel(s, column, row);
    assert IsGridLabel(s, l);
    assert l !in labels;
    var labels' := labels + [l];
    forall i, j | 0 <= i < j < |labels'|
      ensures labels'[i] != labels'[j] && WalkBefore(s, labels'[i], labels'[j])
    {
      if j == |labels| {
        assert labels'[i] in labels;
        assert labels'[j] == l;
      } else {
        assert labels'[i] == labels[i] && labels'[j] == labels[j];
      }
    }
    forall x | x in labels'
      ensures IsGridLabel(s, x) && Before(Column(s, x), Row(s, x), column, row + 1)
    {
      if x != l {
        assert x in labels;
      }
    }
  }

  /**
    The partition splits the walk: every cell before (column, row) is in exactly one part, the
    first part holds the cells without references and the second those with some, each in
    walk order.
   */
  ghost predicate SplitsWalk(s: Sheet, independent: seq<string>, toProcess: seq<string>, column: nat, row: nat)
    requires WellFormed(s)
  {
    WalkOrdered(s, independent, column, row) &&
    WalkOrdered(s, toProcess, column, row) &&
    (forall x :: x in independent ==> x !in toProcess) &&
    (forall x :: x in independent ==> Get(s, x).dependsOn == []) &&
    (forall x :: x in toProcess ==> Get(s, x).dependsOn != []) &&
    (forall c: nat, r: nat :: InGrid(s, c, r) && Before(c, r, column, row) ==>
      ColumnRowToCell(c, r) in independent || ColumnRowToCell(c, r) in toProcess)
  }

  lemma {:induction false} PartitionContents(s: Sheet, column: nat, row: nat)
    requires WellFormed(s) && WalkPosition(s, column, row)
    ensures SplitsWalk(s, Partition(s, column, row).0, Partition(s, column, row).1, column, row)
    decreases column, row
  {
    if row == 0 {
      if column > 0 {
        PartitionContents(s, column - 1, s.rows);
        BeforeColumnEnd(s, column - 1);
      }
    } else {
      PartitionContents(s, column, row - 1);
      var (independent, toProcess) := Partition(s, column, row - 1);
      PartitionStep(s, independent, toProcess, column, row - 1);
    }
  }

  /** Passing the end of a column is the same walk position as the start of the next one. */
  lemma BeforeColumnEnd(s: Sheet, column: nat)
    ensures forall c: nat, r: nat :: InGrid(s, c, r) ==> (Before(c, r, column + 1, 0) <==> Before(c, r, column, s.rows))
  {
  }

  /** One more cell of the walk sorted into its part. */
  lemma PartitionStep(s: Sheet, independent: seq<string>, toProcess: seq<string>, column: nat, row: nat)
    requires WellFormed(s) && InGrid(s, column, row) && SplitsWalk(s, independent, toProcess, column, row)
    ensures var l := ColumnRowToCell(column, row);
      if |s.cells[column][row].dependsOn| == 0 then SplitsWalk(s, independent + [l], toProcess, column, row + 1)
      else SplitsWalk(s, independent, toProcess + [l], column, row + 1)
  {
    var l := ColumnRowToCell(column, row);
    GridLabel(s, column, row);
    WalkOrderedAppend(s, independent, column, row);
    WalkOrderedAppend(s, toProcess, column, row);
    WalkOrderedLater(s, independent, column, row);
    WalkOrderedLater(s, toProcess, column, row);
    assert l !in independent && l !in toProcess;
    assert forall c: nat, r: nat :: InGrid(s, c, r) && Before(c, r, column, row + 1) ==>
      Before(c, r, column, row) || (c, r) == (column, row);
  }

  lemma WalkOrderedLater(s: Sheet, labels: seq<string>, column: nat, row: nat)
    requires WalkOrdered(s, labels, column, row)
    ensures WalkOrdered(s, labels, column, row + 1)
  {
  }

  // ---------------------------------------------------------------------------
  // The computation order: the depth-first visit
  // ---------------------------------------------------------------------------

  predicate AllGridLabels(s: Sheet, labels: seq<string>)
  {
    forall x :: x in labels ==> IsGridLabel(s, x)
  }

  /**
    `visit(l)`: first visit every reference of l that is still to be processed, then append l
    unless it is already in the order. Each nested call takes one frame of `fuel`; when the
    frames run out the recursion is taken to overflow the call stack (`None`).
   */
  function Visit(s: Sheet, toProcess: seq<string>, l: string, order: seq<string>, fuel: nat): Option<seq<string>>
    requires WellFormed(s) && AllGridLabels(s, toProcess) && HasLabel(s, l)
    decreases fuel, 0
  {
    if fuel == 0 then None
    else
      match VisitReferences(s, toProcess, Get(s, l).dependsOn, order, fuel - 1)
      case None => None
      case Some(o) => Some(if l in o then o else o + [l])
  }

  /** The loop of `visit` over the references of a cell. */
  function VisitReferences(s: Sheet, toProcess: seq<string>, deps: seq<string>, order: seq<string>, fuel: nat): Option<seq<string>>
    requires WellFormed(s) && AllGridLabels(s, toProcess)
    decreases fuel, 1, |deps|
  {
    if deps == [] then Some(order)
    else
      var next := if deps[0] in toProcess then Visit(s, toProcess, deps[0], order, fuel) else Some(order);
      match next
      case None => None
      case Some(o) => VisitReferences(s, toProcess, deps[1..], o, fuel)
  }

  /** One step of the loop of `visit`. */
  lemma VisitReferencesStep(s: Sheet, toProcess: seq<string>, deps: seq<string>, order: seq<string>, fuel: nat)
    requires WellFormed(s) && AllGridLabels(s, toProcess) && deps != []
    ensures deps[0] !in toProcess ==>
      VisitReferences(s, toProcess, deps, order, fuel) == VisitReferences(s, toProcess, deps[1..], order, fuel)
    ensures deps[0] in toProcess ==>
      VisitReferences(s, toProcess, deps, order, fuel) ==
        match Visit(s, toProcess, deps[0], order, fuel)
        case None => None
        case Some(o) => VisitReferences(s, toProcess, deps[1..], o, fuel)
  {
  }

  /** The loop that visits every cell to be processed, in turn. */
  function VisitAll(s: Sheet, toProcess: seq<string>, cells: seq<string>, order: seq<string>, fuel: nat): Option<seq<string>>
    requires WellFormed(s) && AllGridLabels(s, toProcess) && AllGridLabels(s, cells)
    decreases |cells|
  {
    if cells == [] then Some(order)
    else
      assert cells[0] in cells;
      match Visit(s, toProcess, cells[0], order, fuel)
      case None => None
      case Some(o) => VisitAll(s, toProcess, cells[1..], o, fuel)
  }

  /** One step of the loop over the cells to be processed. */
  lemma VisitAllStep(s: Sheet, toProcess: seq<string>, cells: seq<string>, order: seq<string>, fuel: nat)
    requires WellFormed(s) && AllGridLabels(s, toProcess) && AllGridLabels(s, cells) && cells != []
    ensures HasLabel(s, cells[0]) && AllGridLabels(s, cells[1..])
    ensures VisitAll(s, toProcess, cells, order, fuel) ==
      match Visit(s, toProcess, cells[0], order, fuel)
      case None => None
      case Some(o) => VisitAll(s, toProcess, cells[1..], o, fuel)
  {
    assert cells[0] in cells;
    assert forall x :: x in cells[1..] ==> x in cells;
  }

  /**
    `updateComputationOrder`: the cells without references, then the others in depth-first
    post-order. The call stack is given one frame per grid cell.
   */
  function ComputationOrder(s: Sheet): Option<seq<string>>
    requires WellFormed(s)
  {
    PartitionContents(s, s.columns, 0);
    VisitAll(s, CellsToBeProcessed(s), CellsToBeProcessed(s), IndependentCells(s), s.columns * s.rows)
  }

  /**
    What the visit keeps true of the order: no label twice, only grid cells, and every cell
    after each of its references that is to be processed.
   */
  predicate OrderInvariant(s: Sheet, toProcess: seq<string>, order: seq<string>)
    requires WellFormed(s)
  {
    NoDuplicates(order) && AllGridLabels(s, order) &&
    forall i, d :: 0 <= i < |order| && HasLabel(s, order[i]) && d in Get(s, order[i]).dependsOn && d in toProcess ==>
      d in order[..i]
  }

  lemma {:induction false} VisitFacts(s: Sheet, toProcess: seq<string>, l: string, order: seq<string>, fuel: nat)
    requires WellFormed(s) && AllGridLabels(s, toProcess) && l in toProcess && OrderInvariant(s, toProcess, order)
    ensures HasLabel(s, l)
    ensures Visit(s, toProcess, l, order, fuel).Some? ==>
      var o := Visit(s, toProcess, l, order, fuel).value;
      OrderInvariant(s, toProcess, o) && order <= o && l in o && forall x :: x in o ==> x in order || x in toProcess
    decreases fuel, 0
  {
    if fuel > 0 {
      var deps := Get(s, l).dependsOn;
      VisitReferencesFacts(s, toProcess, deps, order, fuel - 1);
      if VisitReferences(s, toProcess, deps, order, fuel - 1).Some? {
        var o := VisitReferences(s, toProcess, deps, order, fuel - 1).value;
        if l !in o {
          AppendVisited(s, toProcess, o, l);
        }
      }
    }
  }

  /** Appending a cell whose references to be processed are all in the order keeps the invariant. */
  lemma AppendVisited(s: Sheet, toProcess: seq<string>, o: seq<string>, l: string)
    requires WellFormed(s) && AllGridLabels(s, toProcess) && l in toProcess && l !in o
    requires OrderInvariant(s, toProcess, o)
    requires forall d :: d in Get(s, l).dependsOn && d in toProcess ==> d in o
    ensures OrderInvariant(s, toProcess, o + [l])
  {
    var o' := o + [l];
    assert o'[..|o|] == o;
    forall i, j | 0 <= i < j < |o'|
      ensures o'[i] != o'[j]
    {
      if j == |o| {
        assert o'[i] in o;
      }
    }
    forall i, d | 0 <= i < |o'| && HasLabel(s, o'[i]) && d in Get(s, o'[i]).dependsOn && d in toProcess
      ensures d in o'[..i]
    {
      if i < |o| {
        assert o'[..i] == o[..i];
      }
    }
  }

  lemma {:induction false} VisitReferencesFacts(s: Sheet, toProcess: seq<string>, deps: seq<string>, order: seq<string>, fuel: nat)
    requires WellFormed(s) && AllGridLabels(s, toProcess) && OrderInvariant(s, toProcess, order)
    ensures VisitReferences(s, toProcess, deps, order, fuel).Some? ==>
      var o := VisitReferences(s, toProcess, deps, order, fuel).value;
      OrderInvariant(s, toProcess, o) && order <= o &&
      (forall d :: d in deps && d in toProcess ==> d in o) &&
      (forall x :: x in o ==> x in order || x in toProcess)
    decreases fuel, 1, |deps|
  {
    if deps != [] {
      var o1 := order;
      if deps[0] in toProcess {
        VisitFacts(s, toProcess, deps[0], order, fuel);
        if Visit(s, toProcess, deps[0], order, fuel).Some? {
          o1 := Visit(s, toProcess, deps[0], order, fuel).value;
        }
      }
      if deps[0] in toProcess ==> Visit(s, toProcess, deps[0], order, fuel).Some? {
        VisitReferencesFacts(s, toProcess, deps[1..], o1, fuel);
        if VisitReferences(s, toProcess, deps[1..], o1, fuel).Some? {
          var o := VisitReferences(s, toProcess, deps[1..], o1, fuel).value;
          PrefixMembers(o1, o);
          PrefixMembers(order, o1);
          forall d | d in deps && d in toProcess
            ensures d in o
          {
            if d != deps[0] {
              assert d in deps[1..];
            }
          }
        }
      }
    }
  }

  lemma PrefixMembers(a: seq<string>, b: seq<string>)
    requires a <= b
    ensures forall x :: x in a ==> x in b
  {
    forall x | x in a
      ensures x in b
    {
      var i :| 0 <= i < |a| && a[i] == x;
      assert b[i] == x;
    }
  }

  lemma {:induction false} VisitAllFacts(s: Sheet, toProcess: seq<string>, cells: seq<string>, order: seq<string>, fuel: nat)
    requires WellFormed(s) && AllGridLabels(s, toProcess) && OrderInvariant(s, toProcess, order)
    requires forall x :: x in cells ==> x in toProcess
    ensures AllGridLabels(s, cells)
    ensures VisitAll(s, toProcess, cells, order, fuel).Some? ==>
      var o := VisitAll(s, toProcess, cells, order, fuel).value;
      OrderInvariant(s, toProcess, o) && order <= o &&
      (forall x :: x in cells ==> x in o) &&
      (forall x :: x in o ==> x in order || x in toProcess)
    decreases |cells|
  {
    if cells != [] {
      assert cells[0] in cells;
      VisitFacts(s, toProcess, cells[0], order, fuel);
      if Visit(s, toProcess, cells[0], order, fuel).Some? {
        var o1 := Visit(s, toProcess, cells[0], order, fuel).value;
        assert forall x :: x in cells[1..] ==> x in cells;
        VisitAllFacts(s, toProcess, cells[1..], o1, fuel);
        if VisitAll(s, toProcess, cells[1..], o1, fuel).Some? {
          var o := VisitAll(s, toProcess, cells[1..], o1, fuel).value;
          PrefixMembers(o1, o);
          PrefixMembers(order, o1);
          forall x | x in cells
            ensures x in o
          {
            if x != cells[0] {
              assert x in cells[1..];
            }
          }
        }
      }
    }
  }

  /** Every cell of the order comes after each cell of the order it refers to. */
  predicate Topological(s: Sheet, order: seq<string>)
    requires WellFormed(s)
  {
    forall i, j ::
      (0 <= i < |order| && 0 <= j < |order| && HasLabel(s, order[i]) && order[j] in Get(s, order[i]).dependsOn) ==>
      j < i
  }

  /** What the visit loop establishes about a computed order. */
  lemma ComputationOrderFacts(s: Sheet)
    requires WellFormed(s)
    ensures SplitsWalk(s, IndependentCells(s), CellsToBeProcessed(s), s.columns, 0)
    ensures ComputationOrder(s).Some? ==>
      var order := ComputationOrder(s).value;
      OrderInvariant(s, CellsToBeProcessed(s), order) && IndependentCells(s) <= order &&
      (forall x :: x in CellsToBeProcessed(s) ==> x in order) &&
      (forall x :: x in order ==> x in IndependentCells(s) || x in CellsToBeProcessed(s))
  {
    PartitionContents(s, s.columns, 0);
    var independent, toProcess := IndependentCells(s), CellsToBeProcessed(s);
    assert OrderInvariant(s, toProcess, independent);
    VisitAllFacts(s, toProcess, toProcess, independent, s.columns * s.rows);
  }

  /** A computed order lists every grid cell exactly once. */
  lemma ComputationOrderIsPermutation(s: Sheet)
    requires WellFormed(s)
    ensures ComputationOrder(s).Some? ==>
      var order := ComputationOrder(s).value;
      NoDuplicates(order) &&
      (forall x :: x in order ==> IsGridLabel(s, x)) &&
      (forall c, r :: InGrid(s, c, r) ==> ColumnRowToCell(c, r) in order)
  {
    ComputationOrderFacts(s);
    if ComputationOrder(s).Some? {
      var order := ComputationOrder(s).value;
      PrefixMembers(IndependentCells(s), order);
      forall c, r | InGrid(s, c, r)
        ensures ColumnRowToCell(c, r) in order
      {
        assert Before(c, r, s.columns, 0);
      }
    }
  }

  /**
    A computed order starts with the cells that have no references; every later cell has
    some. The cells without references are those of the walk, in walk order.
   */
  lemma ComputationOrderStartsIndependent(s: Sheet)
    requires WellFormed(s)
    ensures ComputationOrder(s).Some? ==>
      IndependentCells(s) <= ComputationOrder(s).value && AllGridLabels(s, ComputationOrder(s).value)
    ensures ComputationOrder(s).Some? ==>
      forall x :: x in ComputationOrder(s).value ==> (x in IndependentCells(s) <==> Get(s, x).dependsOn == [])
    ensures forall i, j :: 0 <= i < j < |IndependentCells(s)| ==> WalkBefore(s, IndependentCells(s)[i], IndependentCells(s)[j])
    ensures forall c, r :: InGrid(s, c, r) ==> (ColumnRowToCell(c, r) in IndependentCells(s) <==> s.cells[c][r].dependsOn == [])
  {
    ComputationOrderFacts(s);
    forall c, r | InGrid(s, c, r)
      ensures ColumnRowToCell(c, r) in IndependentCells(s) <==> s.cells[c][r].dependsOn == []
    {
      assert Before(c, r, s.columns, 0);
      GridLabel(s, c, r);
    }
  }

  /** A computed order puts every cell after each cell it refers to. */
  lemma ComputationOrderIsTopological(s: Sheet)
    requires WellFormed(s)
    ensures ComputationOrder(s).Some? ==> Topological(s, ComputationOrder(s).value)
  {
    ComputationOrderFacts(s);
    if ComputationOrder(s).Some? {
      OrderTopological(s, IndependentCells(s), CellsToBeProcessed(s), ComputationOrder(s).value);
    }
  }

  /** The invariant of the visit and the partition make the order topological. */
  lemma OrderTopological(s: Sheet, independent: seq<string>, toProcess: seq<string>, order: seq<string>)
    requires WellFormed(s) && SplitsWalk(s, independent, toProcess, s.columns, 0)
    requires OrderInvariant(s, toProcess, order) && independent <= order
    requires forall x :: x in order ==> x in independent || x in toProcess
    ensures Topological(s, order)
  {
    forall i, j | 0 <= i < |order| && 0 <= j < |order| && HasLabel(s, order[i]) && order[j] in Get(s, order[i]).dependsOn
      ensures j < i
    {
      assert order[i] in order && order[j] in order;
      if order[j] in toProcess {
        assert order[j] in order[..i];
        var k :| 0 <= k < i && order[..i][k] == order[j];
        assert order[k] == order[j];
      } else {
        assert order[j] in independent;
        var k :| 0 <= k < |independent| && independent[k] == order[j];
        assert order[k] == order[j];
        assert order[i] !in independent;
      }
    }
  }

  // ---------------------------------------------------------------------------
  // When the visit overflows the call stack
  // ---------------------------------------------------------------------------

  /**
    A numbering of the cells to be processed, below `bound`, that drops along every reference
    from one of them to another: those references form no cycle.
   */
  predicate Ranked(s: Sheet, toProcess: seq<string>, rank: map<string, nat>, bound: nat)
    requires WellFormed(s) && AllGridLabels(s, toProcess)
  {
    forall l :: l in toProcess ==>
      l in rank && rank[l] < bound &&
      forall d :: d in Get(s, l).dependsOn && d in toProcess ==> d in rank && rank[d] < rank[l]
  }

  lemma {:induction false} VisitTerminates(s: Sheet, toProcess: seq<string>, rank: map<string, nat>, bound: nat,
                                           l: string, order: seq<string>, fuel: nat)
    requires WellFormed(s) && AllGridLabels(s, toProcess) && Ranked(s, toProcess, rank, bound)
    requires l in toProcess && rank[l] < fuel
    ensures HasLabel(s, l) && Visit(s, toProcess, l, order, fuel).Some?
    decreases fuel, 0
  {
    VisitReferencesTerminate(s, toProcess, rank, bound, Get(s, l).dependsOn, rank[l], order, fuel - 1);
  }

  lemma {:induction false} VisitReferencesTerminate(s: Sheet, toProcess: seq<string>, rank: map<string, nat>, bound: nat,
                                                    deps: seq<string>, below: nat, order: seq<string>, fuel: nat)
    requires WellFormed(s) && AllGridLabels(s, toProcess) && Ranked(s, toProcess, rank, bound)
    requires below <= fuel
    requires forall d :: d in deps && d in toProcess ==> d in rank && rank[d] < below
    ensures VisitReferences(s, toProcess, deps, order, fuel).Some?
    decreases fuel, 1, |deps|
  {
    if deps != [] {
      var o := order;
      if deps[0] in toProcess {
        assert deps[0] in deps;
        VisitTerminates(s, toProcess, rank, bound, deps[0], order, fuel);
        o := Visit(s, toProcess, deps[0], order, fuel).value;
      }
      assert forall d :: d in deps[1..] ==> d in deps;
      VisitReferencesTerminate(s, toProcess, rank, bound, deps[1..], below, o, fuel);
    }
  }

  lemma {:induction false} VisitAllTerminates(s: Sheet, toProcess: seq<string>, rank: map<string, nat>, bound: nat,
                                              cells: seq<string>, order: seq<string>, fuel: nat)
    requires WellFormed(s) && AllGridLabels(s, toProcess) && Ranked(s, toProcess, rank, bound)
    requires bound <= fuel && forall x :: x in cells ==> x in toProcess
    ensures AllGridLabels(s, cells) && VisitAll(s, toProcess, cells, order, fuel).Some?
    decreases |cells|
  {
    if cells != [] {
      assert cells[0] in cells;
      VisitTerminates(s, toProcess, rank, bound, cells[0], order, fuel);
      assert forall x :: x in cells[1..] ==> x in cells;
      VisitAllTerminates(s, toProcess, rank, bound, cells[1..], Visit(s, toProcess, cells[0], order, fuel).value, fuel);
    }
  }

  /**
    A numbering of the grid cells below the number of cells that drops along every reference
    from a grid cell to a grid cell. A grid that has one has no cycle of references; that every
    grid without a cycle has one is not proved here.
   */
  ghost predicate RankedSheet(s: Sheet, rank: map<string, nat>)
    requires WellFormed(s)
  {
    (forall c, r :: InGrid(s, c, r) ==> ColumnRowToCell(c, r) in rank && rank[ColumnRowToCell(c, r)] < s.columns * s.rows) &&
    forall c, r, c', r' ::
      (InGrid(s, c, r) && InGrid(s, c', r') && ColumnRowToCell(c', r') in s.cells[c][r].dependsOn) ==>
      ColumnRowToCell(c, r) in rank && ColumnRowToCell(c', r') in rank &&
      rank[ColumnRowToCell(c', r')] < rank[ColumnRowToCell(c, r)]
  }

  /** On a ranked grid one call frame per grid cell is enough: the order is always computed. */
  lemma ComputationOrderExists(s: Sheet, rank: map<string, nat>)
    requires WellFormed(s) && RankedSheet(s, rank)
    ensures ComputationOrder(s).Some?
  {
    PartitionContents(s, s.columns, 0);
    var toProcess := CellsToBeProcessed(s);
    var bound := s.columns * s.rows;
    forall l | l in toProcess
      ensures l in rank && rank[l] < bound
      ensures forall d :: d in Get(s, l).dependsOn && d in toProcess ==> d in rank && rank[d] < rank[l]
    {
      assert IsGridLabel(s, l);
      forall d | d in Get(s, l).dependsOn && d in toProcess
        ensures d in rank && rank[d] < rank[l]
      {
        assert IsGridLabel(s, d);
      }
    }
    assert Ranked(s, toProcess, rank, bound);
    VisitAllTerminates(s, toProcess, rank, bound, toProcess, IndependentCells(s), bound);
  }

  /** A cycle of references through cells to be processed: each refers to the next, the last is the first. */
  predicate IsCycle(s: Sheet, toProcess: seq<string>, p: seq<string>)
    requires WellFormed(s) && AllGridLabels(s, toProcess)
  {
    |p| >= 2 && p[0] == p[|p| - 1] &&
    (forall i :: 0 <= i < |p| ==> p[i] in toProcess) &&
    forall i :: 0 <= i < |p| - 1 ==> p[i] in toProcess && p[i + 1] in Get(s, p[i]).dependsOn
  }

  /** The same cycle, entered at its second cell. */
  lemma RotateCycle(s: Sheet, toProcess: seq<string>, p: seq<string>)
    requires WellFormed(s) && AllGridLabels(s, toProcess) && IsCycle(s, toProcess, p)
    ensures IsCycle(s, toProcess, p[1..] + [p[1]])
    ensures (p[1..] + [p[1]])[0] == p[1]
  {
    var q := p[1..] + [p[1]];
    forall i | 0 <= i < |q| - 1
      ensures q[i] in toProcess && q[i + 1] in Get(s, q[i]).dependsOn
    {
      if i == |q| - 2 {
        assert q[i] == p[|p| - 1] == p[0];
      } else {
        assert q[i] == p[i + 1] && q[i + 1] == p[i + 2];
      }
    }
  }

  /**
    Visiting a cell on a cycle never completes, however many call frames are given: the
    source's recursion does not terminate there.
   */
  lemma {:induction false} VisitOnCycle(s: Sheet, toProcess: seq<string>, p: seq<string>, order: seq<string>, fuel: nat)
    requires WellFormed(s) && AllGridLabels(s, toProcess) && IsCycle(s, toProcess, p)
    ensures HasLabel(s, p[0]) && Visit(s, toProcess, p[0], order, fuel).None?
    decreases fuel, 0
  {
    assert p[0] in toProcess;
    if fuel > 0 {
      RotateCycle(s, toProcess, p);
      VisitReferencesOnCycle(s, toProcess, Get(s, p[0]).dependsOn, p[1..] + [p[1]], order, fuel - 1);
    }
  }

  lemma {:induction false} VisitReferencesOnCycle(s: Sheet, toProcess: seq<string>, deps: seq<string>, p: seq<string>,
                                                  order: seq<string>, fuel: nat)
    requires WellFormed(s) && AllGridLabels(s, toProcess) && IsCycle(s, toProcess, p) && p[0] in deps
    ensures VisitReferences(s, toProcess, deps, order, fuel).None?
    decreases fuel, 1, |deps|
  {
    if deps[0] == p[0] {
      VisitOnCycle(s, toProcess, p, order, fuel);
    } else {
      assert p[0] in deps[1..];
      var next := if deps[0] in toProcess then Visit(s, toProcess, deps[0], order, fuel) else Some(order);
      if next.Some? {
        VisitReferencesOnCycle(s, toProcess, deps[1..], p, next.value, fuel);
      }
    }
  }

  lemma {:induction false} VisitAllOnCycle(s: Sheet, toProcess: seq<string>, cells: seq<string>, p: seq<string>,
                                           order: seq<string>, fuel: nat)
    requires WellFormed(s) && AllGridLabels(s, toProcess) && AllGridLabels(s, cells)
    requires IsCycle(s, toProcess, p) && p[0] in cells
    ensures VisitAll(s, toProcess, cells, order, fuel).None?
    decreases |cells|
  {
    if cells[0] == p[0] {
      VisitOnCycle(s, toProcess, p, order, fuel);
    } else {
      assert p[0] in cells[1..];
      assert forall x :: x in cells[1..] ==> x in cells;
      assert cells[0] in cells;
      var next := Visit(s, toProcess, cells[0], order, fuel);
      if next.Some? {
        VisitAllOnCycle(s, toProcess, cells[1..], p, next.value, fuel);
      }
    }
  }

  /** A cycle of references through grid cells: each refers to the next, the last is the first. */
  predicate IsGridCycle(s: Sheet, p: seq<string>)
    requires WellFormed(s)
  {
    |p| >= 2 && p[0] == p[|p| - 1] &&
    forall i :: 0 <= i < |p| ==> IsGridLabel(s, p[i]) && (i < |p| - 1 ==> p[i + 1] in Get(s, p[i]).dependsOn)
  }

  /** A grid cell with references is among the cells to be processed. */
  lemma ReferringCellToBeProcessed(s: Sheet, x: string)
    requires WellFormed(s) && IsGridLabel(s, x) && Get(s, x).dependsOn != []
    ensures x in CellsToBeProcessed(s)
  {
    PartitionContents(s, s.columns, 0);
    var c, r := Column(s, x), Row(s, x);
    assert InGrid(s, c, r) && Before(c, r, s.columns, 0);
  }

  /** On a grid with a cycle of references the order is never computed: the visit overflows. */
  lemma CycleMeansNoOrder(s: Sheet, p: seq<string>)
    requires WellFormed(s) && IsGridCycle(s, p)
    ensures ComputationOrder(s).None?
  {
    PartitionContents(s, s.columns, 0);
    var toProcess := CellsToBeProcessed(s);
    CycleToBeProcessed(s, p);
    var fuel: nat := s.columns * s.rows;
    VisitAllOnCycle(s, toProcess, toProcess, p, IndependentCells(s), fuel);
  }

  /** A cycle through grid cells runs through cells to be processed only. */
  lemma CycleToBeProcessed(s: Sheet, p: seq<string>)
    requires WellFormed(s) && IsGridCycle(s, p)
    ensures AllGridLabels(s, CellsToBeProcessed(s)) && IsCycle(s, CellsToBeProcessed(s), p)
  {
    PartitionContents(s, s.columns, 0);
    var toProcess := CellsToBeProcessed(s);
    forall i | 0 <= i < |p|
      ensures p[i] in toProcess
    {
      var next := if i < |p| - 1 then p[i + 1] else p[1];
      assert next in Get(s, p[i]).dependsOn;
      ReferringCellToBeProcessed(s, p[i]);
    }
  }

  // ---------------------------------------------------------------------------
  // The computation order, as the source computes it
  // ---------------------------------------------------------------------------

  /**
    `updateComputationOrder`: split the cells, then visit every cell to be processed. `None`
    stands for the call stack overflowing in `visit`.
   */
  method UpdateComputationOrder(m: SheetMemory) returns (order: Option<seq<string>>)
    requires m.Valid()
    ensures order == ComputationOrder(m.View())
  {
    ghost var s := m.View();
    var independentCells, cellsToBeProcessed := SplitCells(m);
    assert m.Repr() == old(m.Repr()) && m.View() == s;
    PartitionContents(s, s.columns, 0);
    order := VisitCells(m, s, cellsToBeProcessed, independentCells);
    assert m.Repr() == old(m.Repr()) && m.View() == s;
  }

  /** The last loop of `updateComputationOrder`: visit every cell to be processed, in turn. */
  method VisitCells(m: SheetMemory, ghost s: Sheet, cellsToBeProcessed: seq<string>, independentCells: seq<string>)
    returns (order: Option<seq<string>>)
    requires m.Valid() && m.View() == s && AllGridLabels(s, cellsToBeProcessed)
    ensures order == VisitAll(s, cellsToBeProcessed, cellsToBeProcessed, independentCells, s.columns * s.rows)
  {
    var fuel: nat := m.columns * m.rows;
    var resultingComputationOrder := independentCells;
    for i := 0 to |cellsToBeProcessed|
      invariant AllGridLabels(s, cellsToBeProcessed[i..])
      invariant VisitAll(s, cellsToBeProcessed, cellsToBeProcessed, independentCells, fuel) ==
        VisitAll(s, cellsToBeProcessed, cellsToBeProcessed[i..], resultingComputationOrder, fuel)
    {
      var currentCell := cellsToBeProcessed[i];
      assert cellsToBeProcessed[i..][0] == currentCell && cellsToBeProcessed[i..][1..] == cellsToBeProcessed[i + 1..];
      VisitAllStep(s, cellsToBeProcessed, cellsToBeProcessed[i..], resultingComputationOrder, fuel);
      assert m.Repr() == old(m.Repr()) && m.View() == s;
      var visited := VisitCell(m, cellsToBeProcessed, currentCell, resultingComputationOrder, fuel);
      if visited.None? {
        return None;
      }
      resultingComputationOrder := visited.value;
    }
    return Some(resultingComputationOrder);
  }

  /** The first loops of `updateComputationOrder`: the cells without references and the others. */
  method SplitCells(m: SheetMemory) returns (independentCells: seq<string>, cellsToBeProcessed: seq<string>)
    requires m.Valid()
    ensures (independentCells, cellsToBeProcessed) == Partition(m.View(), m.columns, 0)
  {
    ghost var s := m.View();
    independentCells, cellsToBeProcessed := [], [];
    for column := 0 to m.columns
      invariant (independentCells, cellsToBeProcessed) == Partition(s, column, 0)
    {
      assert m.Repr() == old(m.Repr()) && m.View() == s;
      independentCells, cellsToBeProcessed := SplitColumn(m, column, s, independentCells, cellsToBeProcessed);
    }
    assert m.Repr() == old(m.Repr()) && m.View() == s;
  }

  /** The inner loop of the split, over the rows of one column. */
  method SplitColumn(m: SheetMemory, column: nat, ghost s: Sheet, independent: seq<string>, toProcess: seq<string>)
    returns (independentCells: seq<string>, cellsToBeProcessed: seq<string>)
    requires m.Valid() && m.View() == s && column < m.columns
    requires (independent, toProcess) == Partition(s, column, 0)
    ensures (independentCells, cellsToBeProcessed) == Partition(s, column + 1, 0)
  {
    independentCells, cellsToBeProcessed := independent, toProcess;
    for row := 0 to m.rows
      invariant (independentCells, cellsToBeProcessed) == Partition(s, column, row)
    {
      var currentLabel := ColumnRowToCell(column, row);
      LabelRoundTrip(column, row);
      var currentCell := m.GetCellByLabel(currentLabel);
      assert m.Repr() == old(m.Repr()) && m.View() == s;
      assert currentCell.dependsOn == s.cells[column][row].dependsOn;
      if |currentCell.dependsOn| == 0 {
        independentCells := independentCells + [currentLabel];
      } else {
        cellsToBeProcessed := cellsToBeProcessed + [currentLabel];
      }
    }
  }

  /** `visit`, with the order it extends passed in and out and one frame of `fuel` per call. */
  method VisitCell(m: SheetMemory, cellsToBeProcessed: seq<string>, cell: string, order: seq<string>, fuel: nat)
    returns (result: Option<seq<string>>)
    requires m.Valid() && AllGridLabels(m.View(), cellsToBeProcessed) && HasLabel(m.View(), cell)
    ensures result == Visit(m.View(), cellsToBeProcessed, cell, order, fuel)
    decreases fuel, 0
  {
    if fuel == 0 {
      return None;
    }
    var currentCell := m.GetCellByLabel(cell);
    var visited := VisitReferencesOf(m, cellsToBeProcessed, currentCell.dependsOn, order, fuel - 1);
    if visited.None? {
      return None;
    }
    var resultingComputationOrder := visited.value;
    if cell !in resultingComputationOrder {
      resultingComputationOrder := resultingComputationOrder + [cell];
    }
    return Some(resultingComputationOrder);
  }

  /** The loop of `visit` over the references of the current cell. */
  method VisitReferencesOf(m: SheetMemory, cellsToBeProcessed: seq<string>, currentCellDependsOn: seq<string>,
                           order: seq<string>, fuel: nat)
    returns (result: Option<seq<string>>)
    requires m.Valid() && AllGridLabels(m.View(), cellsToBeProcessed)
    ensures result == VisitReferences(m.View(), cellsToBeProcessed, currentCellDependsOn, order, fuel)
    decreases fuel, 1
  {
    ghost var s := m.View();
    var resultingComputationOrder := order;
    for i := 0 to |currentCellDependsOn|
      invariant VisitReferences(s, cellsToBeProcessed, currentCellDependsOn, order, fuel) ==
        VisitReferences(s, cellsToBeProcessed, currentCellDependsOn[i..], resultingComputationOrder, fuel)
    {
      var currentDependency := currentCellDependsOn[i];
      assert m.Repr() == old(m.Repr()) && m.View() == s;
      assert currentCellDependsOn[i..][0] == currentDependency;
      assert currentCellDependsOn[i..][1..] == currentCellDependsOn[i + 1..];
      VisitReferencesStep(s, cellsToBeProcessed, currentCellDependsOn[i..], resultingComputationOrder, fuel);
      if currentDependency in cellsToBeProcessed {
        var visited := VisitCell(m, cellsToBeProcessed, currentDependency, resultingComputationOrder, fuel);
        if visited.None? {
          return None;
        }
        resultingComputationOrder := visited.value;
      }
    }
    assert currentCellDependsOn[|currentCellDependsOn|..] == [];
    assert m.Repr() == old(m.Repr()) && m.View() == s;
    return Some(resultingComputationOrder);
  }
}
