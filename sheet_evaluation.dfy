/**
  The calculation manager's `evaluateSheet`: rebuild every cell's references, compute the
  order, then evaluate the cells in that order with one evaluator shared by all of them,
  writing each cell's error and result back into the sheet before the next cell is
  evaluated, so that later cells read the results of earlier ones.

  The evaluator keeps its result from one call to the next and only sets it when an
  evaluation succeeds: a cell whose formula fails gets the error and the result left over
  from the last cell that succeeded (0 before the first one).
 */
module SheetEvaluation {
  import opened Wrappers
  import opened Cells
  import opened Formulas
  import opened Memory
  import opened Evaluation
  import opened Calculation

  /**
    Every cell reference in every formula names a cell of the grid. The evaluator looks up
    each reference it meets; one outside the grid is an error in the source (an access past
    the end of the grid), so this is demanded of the callers.
   */
  predicate FormulasInGrid(s: Sheet)
    requires WellFormed(s)
  {
    forall c, r :: 0 <= c < s.columns && 0 <= r < s.rows ==> ReferencesInGrid(s, s.cells[c][r].formula)
  }

  predicate LabelsInGrid(s: Sheet, labels: seq<string>)
  {
    forall x :: x in labels ==> HasLabel(s, x)
  }

  /** The cell after its evaluation: the error, and the evaluator's result after the call. */
  function Evaluated(cell: CellState, outcome: Result<real>, previous: real): CellState
  {
    match outcome
    case Success(v) => cell.(error := "", value := v)
    case Failure(e) => cell.(error := e, value := previous)
  }

  /** The evaluator's result after a call: set on success, kept on an error. */
  function Carried(outcome: Result<real>, previous: real): real
  {
    match outcome
    case Success(v) => v
    case Failure(_) => previous
  }

  /** Writing a cell with the same formula keeps every formula's references in the grid. */
  lemma FormulasInGridAfterPut(s: Sheet, l: string, x: CellState)
    requires WellFormed(s) && FormulasInGrid(s) && HasLabel(s, l) && x.formula == Get(s, l).formula
    ensures FormulasInGrid(PutLabel(s, l, x))
  {
    var t := PutLabel(s, l, x);
    forall c, r | 0 <= c < t.columns && 0 <= r < t.rows
      ensures ReferencesInGrid(t, t.cells[c][r].formula)
    {
      assert t.cells[c][r].formula == s.cells[c][r].formula;
      assert ReferencesInGrid(s, s.cells[c][r].formula);
    }
  }

  /** The loop of `evaluateSheet` over the computation order, from the evaluator's present result. */
  function EvaluateInOrder(s: Sheet, order: seq<string>, previous: real): (t: Sheet)
    requires WellFormed(s) && FormulasInGrid(s) && LabelsInGrid(s, order)
    ensures WellFormed(t) && t.columns == s.columns && t.rows == s.rows && FormulasInGrid(t)
    decreases |order|
  {
    if order == [] then s
    else
      var l := order[0];
      assert l in order;
      var cell := Get(s, l);
      assert ReferencesInGrid(s, s.cells[Column(s, l)][Row(s, l)].formula);
      var outcome := Eval(cell.formula, s);
      FormulasInGridAfterPut(s, l, Evaluated(cell, outcome, previous));
      assert forall x :: x in order[1..] ==> x in order;
      EvaluateInOrder(PutLabel(s, l, Evaluated(cell, outcome, previous)), order[1..], Carried(outcome, previous))
  }

  /** The labels of the computation order belong to the grid; formulas survive the rebuild. */
  lemma OrderInGrid(s: Sheet)
    requires WellFormed(s) && FormulasInGrid(s)
    ensures WellFormed(WithDependencies(s)) && FormulasInGrid(WithDependencies(s))
    ensures ComputationOrder(WithDependencies(s)).Some? ==>
      LabelsInGrid(WithDependencies(s), ComputationOrder(WithDependencies(s)).value)
  {
    var s1 := WithDependencies(s);
    WithDependenciesCurrent(s);
    forall c, r | 0 <= c < s1.columns && 0 <= r < s1.rows
      ensures ReferencesInGrid(s1, s1.cells[c][r].formula)
    {
      assert s1.cells[c][r].formula == s.cells[c][r].formula;
      assert ReferencesInGrid(s, s.cells[c][r].formula);
    }
    ComputationOrderIsPermutation(s1);
  }

  /**
    The sheet after `evaluateSheet`. When the visit overflows the call stack the references
    have been rebuilt already and nothing is evaluated.
   */
  function AfterEvaluation(s: Sheet): Sheet
    requires WellFormed(s) && FormulasInGrid(s)
  {
    OrderInGrid(s);
    var s1 := WithDependencies(s);
    match ComputationOrder(s1)
    case None => s1
    case Some(order) => EvaluateInOrder(s1, order, 0.0)
  }

  /** The loop writes only errors and results: formulas, references and labels stay. */
  lemma {:induction false} EvaluateInOrderKeeps(s: Sheet, order: seq<string>, previous: real)
    requires WellFormed(s) && FormulasInGrid(s) && LabelsInGrid(s, order)
    ensures var t := EvaluateInOrder(s, order, previous);
      forall c, r :: InGrid(s, c, r) ==>
        t.cells[c][r].(error := s.cells[c][r].error, value := s.cells[c][r].value) == s.cells[c][r]
    decreases |order|
  {
    if order != [] {
      var l := order[0];
      assert l in order;
      var cell := Get(s, l);
      assert ReferencesInGrid(s, s.cells[Column(s, l)][Row(s, l)].formula);
      var x := Evaluated(cell, Eval(cell.formula, s), previous);
      FormulasInGridAfterPut(s, l, x);
      assert forall y :: y in order[1..] ==> y in order;
      EvaluateInOrderKeeps(PutLabel(s, l, x), order[1..], Carried(Eval(cell.formula, s), previous));
    }
  }

  /**
    After `evaluateSheet`, whether or not the order was computed, every cell keeps its
    formula and label and its references are those of its formula.
   */
  lemma AfterEvaluationKeeps(s: Sheet)
    requires WellFormed(s) && FormulasInGrid(s)
    ensures var t := AfterEvaluation(s);
      WellFormed(t) && t.columns == s.columns && t.rows == s.rows &&
      forall c, r :: InGrid(s, c, r) ==>
        t.cells[c][r].formula == s.cells[c][r].formula && t.cells[c][r].cellLabel == s.cells[c][r].cellLabel &&
        t.cells[c][r].dependsOn == CellReferences(s.cells[c][r].formula)
  {
    OrderInGrid(s);
    WithDependenciesCurrent(s);
    var s1 := WithDependencies(s);
    if ComputationOrder(s1).Some? {
      EvaluateInOrderKeeps(s1, ComputationOrder(s1).value, 0.0);
    }
  }

  // ---------------------------------------------------------------------------
  // After the evaluation every cell agrees with its formula
  // ---------------------------------------------------------------------------

  /** The cell at x holds what its formula evaluates to on the sheet (its result, or its error). */
  predicate Agrees(s: Sheet, x: string)
    requires WellFormed(s) && FormulasInGrid(s) && HasLabel(s, x)
  {
    assert ReferencesInGrid(s, s.cells[Column(s, x)][Row(s, x)].formula);
    match Eval(Get(s, x).formula, s)
    case Success(v) => Get(s, x).error == "" && Get(s, x).value == v
    case Failure(e) => Get(s, x).error == e
  }

  /** Two grids of the same shape hold the same formulas. */
  predicate SameFormulas(s: Sheet, base: Sheet)
    requires WellFormed(s) && WellFormed(base)
  {
    s.columns == base.columns && s.rows == base.rows &&
    forall c, r :: 0 <= c < s.columns && 0 <= r < s.rows ==> s.cells[c][r].formula == base.cells[c][r].formula
  }

  /**
    Every cell reference in the formula of a label of the list is a grid label that comes
    earlier in the list.
   */
  predicate ReferencesEarlier(s: Sheet, labels: seq<string>)
    requires WellFormed(s)
  {
    forall i, d :: (0 <= i < |labels| && HasLabel(s, labels[i]) && d in Get(s, labels[i]).formula && IsValidCellLabel(d)) ==>
      d in labels[..i]
  }

  /** Distinct grid labels name distinct cells. */
  lemma GridLabelsApart(s: Sheet, x: string, y: string)
    requires IsGridLabel(s, x) && IsGridLabel(s, y) && x != y
    ensures (Column(s, x), Row(s, x)) != (Column(s, y), Row(s, y))
  {
  }

  /**
    The invariant of the loop: every label already evaluated agrees with its formula, and
    it goes on agreeing while the rest of the order is evaluated.
   */
  lemma {:induction false} EvaluateInOrderAgrees(s: Sheet, base: Sheet, done: seq<string>, order: seq<string>, previous: real)
    requires WellFormed(s) && WellFormed(base) && FormulasInGrid(s) && SameFormulas(s, base)
    requires NoDuplicates(done + order) && AllGridLabels(s, done + order)
    requires ReferencesEarlier(base, done + order)
    requires forall x :: x in done ==> HasLabel(s, x) && Agrees(s, x)
    ensures LabelsInGrid(s, order)
    ensures var t := EvaluateInOrder(s, order, previous);
      WellFormed(t) && FormulasInGrid(t) && forall x :: x in done + order ==> HasLabel(t, x) && Agrees(t, x)
    decreases |order|
  {
    assert forall x :: x in order ==> x in done + order;
    if order == [] {
      assert done + order == done;
    } else {
      var l := order[0];
      EvaluateInOrderStep(s, order, previous);
      AgreesAfterStep(s, base, done, order, previous);
      var cell := Get(s, l);
      var outcome := Eval(cell.formula, s);
      var s' := PutLabel(s, l, Evaluated(cell, outcome, previous));
      ShiftFirst(done, order);
      EvaluateInOrderAgrees(s', base, done + [l], order[1..], Carried(outcome, previous));
    }
  }

  /** Moving the first label of the rest onto the end of the part already done keeps the whole list. */
  lemma ShiftFirst(done: seq<string>, order: seq<string>)
    requires order != []
    ensures (done + [order[0]]) + order[1..] == done + order
  {
    assert order == [order[0]] + order[1..];
  }

  /** After the first label of the order is evaluated, it agrees with its formula and so do the labels before it. */
  lemma AgreesAfterStep(s: Sheet, base: Sheet, done: seq<string>, order: seq<string>, previous: real)
    requires WellFormed(s) && WellFormed(base) && FormulasInGrid(s) && SameFormulas(s, base)
    requires NoDuplicates(done + order) && AllGridLabels(s, done + order)
    requires ReferencesEarlier(base, done + order)
    requires forall x :: x in done ==> HasLabel(s, x) && Agrees(s, x)
    requires order != []
    ensures HasLabel(s, order[0]) && ReferencesInGrid(s, Get(s, order[0]).formula)
    ensures var l := order[0];
      var cell := Get(s, l);
      var s' := PutLabel(s, l, Evaluated(cell, Eval(cell.formula, s), previous));
      WellFormed(s') && SameFormulas(s', base) && forall x :: x in done + [l] ==> HasLabel(s', x) && Agrees(s', x)
  {
    var l := order[0];
    var whole := done + order;
    assert whole[|done|] == l;
    assert l in whole;
    var cell := Get(s, l);
    assert ReferencesInGrid(s, s.cells[Column(s, l)][Row(s, l)].formula);
    var outcome := Eval(cell.formula, s);
    var x' := Evaluated(cell, outcome, previous);
    var s' := PutLabel(s, l, x');
    assert SameFormulas(s', base) by {
      forall c, r | 0 <= c < s'.columns && 0 <= r < s'.rows
        ensures s'.cells[c][r].formula == base.cells[c][r].formula
      {
        assert s'.cells[c][r].formula == s.cells[c][r].formula;
      }
    }
    // The cells referred to by l come before it, so none of them is l.
    forall d | d in cell.formula && IsValidCellLabel(d)
      ensures d in done && d != l && Get(s', d) == Get(s, d)
    {
      ReferenceEarlierAt(s, base, whole, |done|, d);
      assert whole[..|done|] == done;
      NoDuplicatesApart(whole, done, l, d);
      CellApart(s, l, d, x');
    }
    assert Agrees(s', l) by {
      assert Get(s', l) == x';
      EvalLocal(cell.formula, s, s');
    }
    forall x | x in done
      ensures Agrees(s', x)
    {
      DoneStaysAgreed(s, s', base, whole, done, l, x', x);
    }
  }

  /** A reference of the formula at position i of the list comes earlier in the list. */
  lemma ReferenceEarlierAt(s: Sheet, base: Sheet, whole: seq<string>, i: nat, d: string)
    requires WellFormed(s) && WellFormed(base) && SameFormulas(s, base)
    requires i < |whole| && HasLabel(s, whole[i]) && ReferencesEarlier(base, whole)
    requires d in Get(s, whole[i]).formula && IsValidCellLabel(d)
    ensures d in whole[..i]
  {
    assert Get(s, whole[i]).formula == Get(base, whole[i]).formula;
  }

  /** A label of the list before position |done| is not the label at that position. */
  lemma NoDuplicatesApart(whole: seq<string>, done: seq<string>, l: string, d: string)
    requires NoDuplicates(whole) && |done| < |whole| && done == whole[..|done|] && whole[|done|] == l && d in done
    ensures d != l
  {
    var k :| 0 <= k < |done| && done[k] == d;
    assert whole[k] == d;
  }

  /** Writing the cell at l leaves the cell at every other grid label as it was. */
  lemma CellApart(s: Sheet, l: string, d: string, x: CellState)
    requires WellFormed(s) && IsGridLabel(s, l) && HasLabel(s, d) && IsValidCellLabel(d) && d != l
    ensures Get(PutLabel(s, l, x), d) == Get(s, d)
  {
    ValidIsGridLabel(s, d);
    GridLabelsApart(s, l, d);
  }

  /** A valid label that names a grid cell is the grid's own label for that cell. */
  lemma ValidIsGridLabel(s: Sheet, d: string)
    requires HasLabel(s, d) && IsValidCellLabel(d)
    ensures IsGridLabel(s, d)
  {
    ValidLabelIff(d);
    var column: nat, row: nat :| column < 26 && row < 99 && d == ColumnRowToCell(column, row);
    LabelRoundTrip(column, row);
  }

  /** A label evaluated earlier still agrees once l has been written. */
  lemma DoneStaysAgreed(s: Sheet, s': Sheet, base: Sheet, whole: seq<string>, done: seq<string>, l: string,
                        x': CellState, x: string)
    requires WellFormed(s) && WellFormed(base) && FormulasInGrid(s) && SameFormulas(s, base)
    requires NoDuplicates(whole) && AllGridLabels(s, whole) && ReferencesEarlier(base, whole)
    requires |done| < |whole| && done == whole[..|done|] && whole[|done|] == l && HasLabel(s, l)
    requires x'.formula == Get(s, l).formula && s' == PutLabel(s, l, x') && FormulasInGrid(s')
    requires x in done && HasLabel(s, x) && Agrees(s, x)
    ensures HasLabel(s', x) && Agrees(s', x)
  {
    assert l in whole && x in whole;
    NoDuplicatesApart(whole, done, l, x);
    assert IsGridLabel(s, l) && IsGridLabel(s, x);
    GridLabelsApart(s, l, x);
    assert Get(s', x) == Get(s, x);
    var k :| 0 <= k < |done| && done[k] == x;
    assert whole[k] == x;
    var f := Get(s, x).formula;
    assert ReferencesInGrid(s, s.cells[Column(s, x)][Row(s, x)].formula);
    assert ReferencesInGrid(s', s'.cells[Column(s', x)][Row(s', x)].formula);
    forall d | d in f && IsValidCellLabel(d)
      ensures CellValue(Get(s, d)) == CellValue(Get(s', d))
    {
      ReferenceEarlierAt(s, base, whole, k, d);
      assert whole[..k] <= done;
      assert d in done;
      NoDuplicatesApart(whole, done, l, d);
      CellApart(s, l, d, x');
    }
    EvalLocal(f, s, s');
  }

  /**
    In the order computed for a sheet whose references are up to date, every cell reference
    of a formula comes before the cell.
   */
  lemma OrderReferencesEarlier(s: Sheet)
    requires WellFormed(s) && FormulasInGrid(s) && DependenciesCurrent(s) && ComputationOrder(s).Some?
    ensures ReferencesEarlier(s, ComputationOrder(s).value)
  {
    var order := ComputationOrder(s).value;
    ComputationOrderIsPermutation(s);
    ComputationOrderIsTopological(s);
    forall i, d | 0 <= i < |order| && HasLabel(s, order[i]) && d in Get(s, order[i]).formula && IsValidCellLabel(d)
      ensures d in order[..i]
    {
      var l := order[i];
      assert l in order;
      assert ReferencesInGrid(s, s.cells[Column(s, l)][Row(s, l)].formula);
      assert HasLabel(s, d);
      ValidIsGridLabel(s, d);
      var c, r := Column(s, d), Row(s, d);
      assert InGrid(s, c, r);
      assert d in order;
      var j :| 0 <= j < |order| && order[j] == d;
      CellReferencesMembers(Get(s, l).formula);
      assert d in Get(s, l).dependsOn;
      assert j < i;
      assert order[..i][j] == d;
    }
  }

  /**
    After `evaluateSheet` completes, every cell holds what its formula evaluates to on the
    final sheet: the order puts each cell after the cells it refers to, and they do not
    change afterwards.
   */
  lemma EvaluateSheetConsistent(s: Sheet)
    requires WellFormed(s) && FormulasInGrid(s) && ComputationOrder(WithDependencies(s)).Some?
    ensures var t := AfterEvaluation(s);
      WellFormed(t) && FormulasInGrid(t) &&
      forall c, r :: InGrid(t, c, r) ==> HasLabel(t, ColumnRowToCell(c, r)) && Agrees(t, ColumnRowToCell(c, r))
  {
    var s1 := WithDependencies(s);
    OrderInGrid(s);
    WithDependenciesCurrent(s);
    var order := ComputationOrder(s1).value;
    ComputationOrderIsPermutation(s1);
    OrderReferencesEarlier(s1);
    assert [] + order == order;
    EvaluateInOrderAgrees(s1, s1, [], order, 0.0);
    var t := AfterEvaluation(s);
    forall c, r | InGrid(t, c, r)
      ensures HasLabel(t, ColumnRowToCell(c, r)) && Agrees(t, ColumnRowToCell(c, r))
    {
      assert InGrid(s1, c, r);
      assert ColumnRowToCell(c, r) in order;
    }
  }

  // ---------------------------------------------------------------------------
  // The evaluation, as the source runs it
  // ---------------------------------------------------------------------------

  /**
    `evaluateSheet`: rebuild the references, compute the order and evaluate the cells in it
    with one new evaluator. `completed` is false when the visit overflows the call stack.
   */
  method EvaluateSheet(m: SheetMemory) returns (completed: bool)
    requires m.Valid() && FormulasInGrid(m.View())
    modifies m`cells, m.Repr()
    ensures m.Valid() && m.Repr() == old(m.Repr())
    ensures completed == ComputationOrder(WithDependencies(old(m.View()))).Some?
    ensures m.View() == AfterEvaluation(old(m.View()))
  {
    ghost var s := m.View();
    OrderInGrid(s);
    UpdateDependencies(m);
    var computationOrder := UpdateComputationOrder(m);
    if computationOrder.None? {
      return false;
    }
    var calculator := new FormulaEvaluator(m);
    assert m.Repr() == old(m.Repr()) && m.View() == WithDependencies(s);
    EvaluateCells(m, calculator, computationOrder.value);
    completed := true;
  }

  /** The loop of `evaluateSheet` over the computation order. */
  method EvaluateCells(m: SheetMemory, calculator: FormulaEvaluator, computationOrder: seq<string>)
    requires m.Valid() && calculator.memory == m && FormulasInGrid(m.View()) && LabelsInGrid(m.View(), computationOrder)
    modifies m`cells, m.Repr(), calculator`errorMessage, calculator`result
    ensures m.Valid() && m.Repr() == old(m.Repr())
    ensures m.View() == EvaluateInOrder(old(m.View()), computationOrder, old(calculator.result))
  {
    ghost var s := m.View();
    ghost var r := calculator.result;
    for i := 0 to |computationOrder|
      invariant m.Valid() && m.Repr() == old(m.Repr()) && FormulasInGrid(m.View())
      invariant LabelsInGrid(m.View(), computationOrder[i..])
      invariant EvaluateInOrder(s, computationOrder, r) == EvaluateInOrder(m.View(), computationOrder[i..], calculator.result)
    {
      var cellLabel := computationOrder[i];
      assert computationOrder[i..][0] == cellLabel && computationOrder[i..][1..] == computationOrder[i + 1..];
      EvaluateInOrderStep(m.View(), computationOrder[i..], calculator.result);
      EvaluateCell(m, calculator, cellLabel);
    }
  }

  /** One step of the loop: the first label of the order is evaluated, the rest follows. */
  lemma EvaluateInOrderStep(s: Sheet, order: seq<string>, previous: real)
    requires WellFormed(s) && FormulasInGrid(s) && LabelsInGrid(s, order) && order != []
    ensures HasLabel(s, order[0]) && ReferencesInGrid(s, Get(s, order[0]).formula)
    ensures var cell := Get(s, order[0]);
      var outcome := Eval(cell.formula, s);
      var t := PutLabel(s, order[0], Evaluated(cell, outcome, previous));
      WellFormed(t) && FormulasInGrid(t) && LabelsInGrid(t, order[1..]) &&
      EvaluateInOrder(s, order, previous) == EvaluateInOrder(t, order[1..], Carried(outcome, previous))
  {
    var l := order[0];
    assert l in order;
    assert ReferencesInGrid(s, s.cells[Column(s, l)][Row(s, l)].formula);
    var cell := Get(s, l);
    FormulasInGridAfterPut(s, l, Evaluated(cell, Eval(cell.formula, s), previous));
    assert forall x :: x in order[1..] ==> x in order;
  }

  /** The body of that loop: evaluate one cell's formula and write its error and result back. */
  method EvaluateCell(m: SheetMemory, calculator: FormulaEvaluator, cellLabel: string)
    requires m.Valid() && calculator.memory == m && FormulasInGrid(m.View()) && HasLabel(m.View(), cellLabel)
    modifies m`cells, m.Repr(), calculator`errorMessage, calculator`result
    ensures m.Valid() && m.Repr() == old(m.Repr())
    ensures var s := old(m.View());
      var cell := Get(s, cellLabel);
      var outcome := Eval(cell.formula, s);
      m.View() == PutLabel(s, cellLabel, Evaluated(cell, outcome, old(calculator.result))) &&
      calculator.result == Carried(outcome, old(calculator.result))
  {
    ghost var s := m.View();
    var column, row := Column(s, cellLabel), Row(s, cellLabel);
    var currentCell := m.GetCellByLabel(cellLabel);
    var formula := currentCell.formula;
    assert ReferencesInGrid(s, s.cells[column][row].formula);
    calculator.Evaluate(formula);
    assert m.Repr() == old(m.Repr()) && m.View() == s;
    var value := calculator.result;
    var error := calculator.errorMessage;
    ghost var before := m.View();
    currentCell.SetError(error);
    currentCell.SetValue(value);
    forall c, r | 0 <= c < m.columns && 0 <= r < m.rows && (c, r) != (column, row)
      ensures m.cells[c][r].State() == before.cells[c][r]
    { }
    ViewAfterChange(m, before, column, row);
    ghost var after := m.View();
    m.SetCellByLabel(cellLabel, currentCell);
    PutLabelSame(after, cellLabel, currentCell.State());
  }
}
