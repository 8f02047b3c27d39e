/**
  The spreadsheet controller: one sheet shared by many users. It keeps a record per user
  and a table of the cells being edited, and re-evaluates the whole sheet after every
  formula edit. Every method is proved to follow the matching function of `Sessions` on
  `State()`, the controller read as a value, and to keep `Valid()`, which includes the
  lock-table invariant `LocksConsistent`.

  The user records are kept as `UserState` values: an edit of a user's formula runs the
  `FormulaBuilder` operation on a builder loaded with the record's formula and stores the
  result back in the record.
 */
module Controller {
  import opened Wrappers
  import opened Cells
  import opened Formulas
  import opened Memory
  import opened Evaluation
  import opened Calculation
  import opened Circularity
  import opened SheetEvaluation
  import opened Sessions

  class SpreadSheetController {
    const memory: SheetMemory
    var contributingUsers: map<string, UserState>
    var cellsBeingEdited: map<string, string>

    /** The sheet held in `memory`, as a value. */
    ghost var sheet: Sheet

    /** The controller as a value. */
    ghost function State(): Session
      reads this
    {
      Session(sheet, contributingUsers, cellsBeingEdited)
    }

    ghost predicate Valid()
      reads this, memory, memory.Repr()
    {
      memory.Valid() && memory.View() == sheet && Ready(State()) && LocksConsistent(State())
    }

    constructor(columns: nat, rows: nat)
      ensures Valid() && fresh(memory) && fresh(memory.Repr())
      ensures State() == NewSession(columns, rows)
    {
      var m := new SheetMemory(columns, rows);
      memory := m;
      contributingUsers := map[];
      cellsBeingEdited := map[];
      sheet := m.View();
    }

    // -------------------------------------------------------------------------
    // Access requests
    // -------------------------------------------------------------------------

    /** Changing the controller's own fields leaves the sheet memory and its view as they were. */
    twostate lemma MemoryUnchanged()
      requires old(memory.Valid()) && unchanged(memory) && unchanged(old(memory.Repr()))
      ensures memory.Valid() && memory.View() == old(memory.View())
    {
      assert memory.Repr() == old(memory.Repr());
    }

    method RequestViewAccess(user: string, l: string)
      requires Valid() && ViewAllowed(State(), user, l)
      modifies this
      ensures Valid() && State() == ViewAccess(old(State()), user, l)
    {
      ghost var S := State();
      ViewAccessReady(S, user, l);
      var users, locks := contributingUsers, cellsBeingEdited;
      if user !in users {
        var cell := memory.GetCellByLabel(l);
        users := users[user := UserState(l, false, cell.formula)];
      } else {
        var userData := users[user];
        if userData.cellLabel == l {
          if l in locks {
            locks := locks - {l};
          }
          users := users[user := userData.(isEditing := false)];
        } else {
          if userData.cellLabel != "" {
            if userData.cellLabel in locks {
              locks := locks - {userData.cellLabel};
            }
          }
          var cell := memory.GetCellByLabel(l);
          users := users[user := userData.(cellLabel := l, formula := cell.formula)];
        }
      }
      contributingUsers, cellsBeingEdited := users, locks;
      MemoryUnchanged();
    }

    method RequestEditAccess(user: string, l: string) returns (ok: bool)
      requires Valid() && ViewAllowed(State(), user, l)
      modifies this
      ensures Valid() && (State(), ok) == EditAccess(old(State()), user, l)
    {
      ghost var S := State();
      EditTargetKeeps(S, user, l);
      if !(user in contributingUsers && contributingUsers[user].cellLabel == l) {
        RequestViewAccess(user, l);
      }
      assert State() == EditTarget(S, user, l);
      ok := LockCell(user, l);
    }

    /** The lock checks of `requestEditAccess`, for a user already on cell l. */
    method LockCell(user: string, l: string) returns (ok: bool)
      requires Valid() && user in contributingUsers && contributingUsers[user].cellLabel == l
      modifies this
      ensures Valid() && (State(), ok) == Acquire(old(State()), user, l)
    {
      AcquireKeeps(State(), user, l);
      if l in cellsBeingEdited && cellsBeingEdited[l] == user {
        return true;
      }
      if l in cellsBeingEdited && cellsBeingEdited[l] != "" && cellsBeingEdited[l] != user {
        return false;
      }
      if l in cellsBeingEdited && cellsBeingEdited[l] != user {
        return false;
      }
      var users, locks := contributingUsers, cellsBeingEdited;
      var userData := users[user];
      if userData.cellLabel != "" && userData.cellLabel != l {
        locks := locks - {userData.cellLabel};
      }
      locks := locks[l := user];
      users := users[user := userData.(isEditing := true)];
      contributingUsers, cellsBeingEdited := users, locks;
      MemoryUnchanged();
      ok := true;
    }

    method ReleaseEditAccess(user: string)
      requires Valid()
      modifies this
      ensures Valid() && State() == Release(old(State()), user)
    {
      ghost var S := State();
      ReleaseKeeps(S, user);
      if user in contributingUsers {
        var editingCell := contributingUsers[user].cellLabel;
        if editingCell != "" {
          if editingCell in cellsBeingEdited {
            cellsBeingEdited := cellsBeingEdited - {editingCell};
          }
        }
        contributingUsers := contributingUsers - {user};
      }
      MemoryUnchanged();
      assert State() == Release(S, user);
    }

    // -------------------------------------------------------------------------
    // Formula edits
    // -------------------------------------------------------------------------

    /** The tail every edit shares: the user's formula goes into the user's cell, then the sheet is recomputed. */
    method StoreFormula(user: string)
      requires Valid() && user in contributingUsers
      modifies this, memory, memory.Repr()
      ensures Valid() && memory.Repr() == old(memory.Repr())
      ensures State() == Stored(old(State()), user)
    {
      ghost var S := State();
      var cellBeingEdited := contributingUsers[user].cellLabel;
      var f := contributingUsers[user].formula;
      StoredSheet(S, user);
      WriteAndEvaluate(cellBeingEdited, f);
      sheet := memory.View();
    }

    /** The formula goes into the cell at the label and the whole sheet is recomputed. */
    method WriteAndEvaluate(l: string, f: seq<string>)
      requires memory.Valid() && HasLabel(memory.View(), l)
      requires FormulasInGrid(PutLabel(memory.View(), l, Get(memory.View(), l).(formula := f)))
      modifies memory`cells, memory.Repr()
      ensures memory.Valid() && memory.Repr() == old(memory.Repr())
      ensures memory.View() == AfterEvaluation(PutLabel(old(memory.View()), l, Get(old(memory.View()), l).(formula := f)))
    {
      WriteFormula(l, f);
      var completed := EvaluateSheet(memory);
    }

    /** `cell.setFormula(...)` on the cell at a label, then `setCellByLabel` with that same cell. */
    method WriteFormula(l: string, f: seq<string>)
      requires memory.Valid() && HasLabel(memory.View(), l)
      modifies memory`cells, memory.Repr()
      ensures memory.Valid() && memory.Repr() == old(memory.Repr())
      ensures memory.View() == PutLabel(old(memory.View()), l, Get(old(memory.View()), l).(formula := f))
    {
      ghost var before := memory.View();
      var column, row := Column(before, l), Row(before, l);
      var cell := memory.GetCellByLabel(l);
      cell.SetFormula(f);
      forall c, r | 0 <= c < memory.columns && 0 <= r < memory.rows && (c, r) != (column, row)
        ensures memory.cells[c][r].State() == before.cells[c][r]
      { }
      ViewAfterChange(memory, before, column, row);
      ghost var after := memory.View();
      memory.SetCellByLabel(l, cell);
      PutLabelSame(after, l, cell.State());
    }

    method AddToken(token: string, user: string)
      requires Valid() && ReferencesInGrid(State().sheet, [token])
      modifies this, memory, memory.Repr()
      ensures Valid() && memory.Repr() == old(memory.Repr())
      ensures State() == Sessions.AddToken(old(State()), token, user)
    {
      ghost var S := State();
      if user !in contributingUsers {
        return;
      }
      var userData := contributingUsers[user];
      if !userData.isEditing {
        return;
      }
      var builder := new FormulaBuilder();
      builder.SetFormula(userData.formula);
      builder.AddToken(token);
      AppendTokenInGrid(S.sheet, userData.formula, token);
      WithFormulaReady(S, user, builder.formula);
      contributingUsers := contributingUsers[user := userData.(formula := builder.formula)];
      MemoryUnchanged();
      assert State() == WithFormula(S, user, AppendToken(S.users[user].formula, token));
      StoreFormula(user);
    }

    method AddCell(cellReference: string, user: string)
      requires Valid() && CellAllowed(State(), cellReference, user)
      modifies this, memory, memory.Repr()
      ensures Valid() && memory.Repr() == old(memory.Repr())
      ensures State() == Sessions.AddCell(old(State()), cellReference, user)
    {
      if user !in contributingUsers {
        return;
      }
      var userEditing := contributingUsers[user];
      if userEditing.cellLabel == "" {
        return;
      }
      if cellReference == userEditing.cellLabel {
        return;
      }
      var currentCell := memory.GetCellByLabel(userEditing.cellLabel);
      var currentLabel := userEditing.cellLabel;
      var okToAdd := OkToAddNewDependency(memory, currentLabel, cellReference);
      if okToAdd == Some(true) {
        AddToken(cellReference, user);
      }
    }

    method RemoveToken(user: string)
      requires Valid()
      modifies this, memory, memory.Repr()
      ensures Valid() && memory.Repr() == old(memory.Repr())
      ensures State() == Sessions.RemoveToken(old(State()), user)
    {
      if user !in contributingUsers {
        return;
      }
      var userEditing := contributingUsers[user];
      if userEditing.cellLabel == "" {
        return;
      }
      ghost var S := State();
      var builder := new FormulaBuilder();
      builder.SetFormula(userEditing.formula);
      builder.RemoveToken();
      RemoveLastInGrid(S.sheet, userEditing.formula);
      WithFormulaReady(S, user, builder.formula);
      contributingUsers := contributingUsers[user := userEditing.(formula := builder.formula)];
      MemoryUnchanged();
      assert State() == WithFormula(S, user, RemoveLast(S.users[user].formula));
      StoreFormula(user);
    }

    method ClearFormula(user: string)
      requires Valid()
      modifies this, memory, memory.Repr()
      ensures Valid() && memory.Repr() == old(memory.Repr())
      ensures State() == Sessions.ClearFormula(old(State()), user)
    {
      if user !in contributingUsers {
        return;
      }
      var userEditing := contributingUsers[user];
      if userEditing.cellLabel == "" {
        return;
      }
      ghost var S := State();
      var builder := new FormulaBuilder();
      builder.SetFormula([]);
      WithFormulaReady(S, user, builder.formula);
      contributingUsers := contributingUsers[user := userEditing.(formula := builder.formula)];
      MemoryUnchanged();
      assert State() == WithFormula(S, user, []);
      StoreFormula(user);
    }

    // -------------------------------------------------------------------------
    // Queries
    // -------------------------------------------------------------------------

    method GetFormulaStringForUser(user: string) returns (formula: string)
      requires Valid()
      modifies this
      ensures Valid() && (State(), formula) == FormulaStringFor(old(State()), user)
    {
      if user !in contributingUsers {
        return "";
      }
      ghost var S := State();
      FormulaStringForReady(S, user);
      var userData := contributingUsers[user];
      var cell := memory.GetCellByLabel(userData.cellLabel);
      var builder := new FormulaBuilder();
      builder.SetFormula(cell.formula);
      contributingUsers := contributingUsers[user := userData.(formula := builder.formula)];
      MemoryUnchanged();
      formula := builder.GetFormulaString();
    }

    method GetResultStringForUser(user: string) returns (displayString: Display)
      requires Valid()
      ensures displayString == ResultStringFor(State(), user)
    {
      if user !in contributingUsers {
        return Text("");
      }
      var userEditing := contributingUsers[user];
      var cell := memory.GetCellByLabel(userEditing.cellLabel);
      displayString := cell.GetDisplayString();
    }

    method GetWorkingCellLabel(user: string) returns (l: string)
      requires Valid()
      ensures l == WorkingCellLabel(State(), user)
    {
      if user !in contributingUsers {
        return "";
      }
      l := contributingUsers[user].cellLabel;
    }

    method GetEditStatus(user: string) returns (editing: bool)
      requires Valid()
      ensures editing == EditStatus(State(), user)
    {
      if user !in contributingUsers {
        return false;
      }
      var userEditing := contributingUsers[user];
      if userEditing.cellLabel == "" {
        return false;
      }
      editing := true;
    }

    method GetEditStatusString(user: string) returns (status: string)
      requires Valid()
      ensures status == EditStatusString(State(), user)
    {
      if user !in contributingUsers {
        return "browsing";
      }
      var userEditing := contributingUsers[user];
      if userEditing.cellLabel == "" {
        return "browsing";
      }
      status := "editing: " + userEditing.cellLabel;
    }

    method GetSheetDisplayStringsForGUI() returns (display: Option<seq<seq<Display>>>)
      requires Valid()
      modifies this, memory, memory.Repr()
      ensures Valid() && memory.Repr() == old(memory.Repr())
      ensures (State(), display) == GuiDisplay(old(State()))
    {
      var completed := Recompute();
      if !completed {
        return None;
      }
      display := DisplayRowMajor(memory);
    }

    /**
      The first two steps of `getSheetDisplayStringsForGUI`: compute the order, then recompute
      the sheet. It completes when neither the stored nor the rebuilt references hold a cycle.
     */
    method Recompute() returns (completed: bool)
      requires Valid()
      modifies this, memory, memory.Repr()
      ensures Valid() && memory.Repr() == old(memory.Repr())
      ensures State() == GuiDisplay(old(State())).0
      ensures completed <==> ComputationOrder(old(sheet)).Some? && ComputationOrder(WithDependencies(old(sheet))).Some?
    {
      ghost var S := State();
      GuiDisplayReady(S);
      var order := UpdateComputationOrder(memory);
      if order.None? {
        return false;
      }
      completed := EvaluateSheet(memory);
      sheet := GuiDisplay(S).0.sheet;
    }

    method DocumentContainer(user: string) returns (document: DocumentState)
      requires Valid() && (user in contributingUsers || HasLabel(State().sheet, "A1"))
      modifies this
      ensures Valid() && (State(), document) == Sessions.DocumentContainer(old(State()), user)
    {
      ghost var S := State();
      var container := memory.SheetContainer();
      MemoryUnchanged();
      if user !in contributingUsers {
        RequestViewAccess(user, "A1");
      }
      assert State() == if user !in S.users then ViewAccess(S, user, "A1") else S;
      var userData := contributingUsers[user];
      var cellFocused := userData.cellLabel;
      var formula := GetFormulaStringForUser(user);
      var result := GetResultStringForUser(user);
      document := DocumentState(container, cellFocused, formula, result, userData.isEditing);
    }
  }

  /**
    The display strings of the sheet in row-major order, as `getSheetDisplayStringsForGUI`
    builds them after recomputing; `None` is the crash on a sheet without columns, which has
    no first column to measure.
   */
  method DisplayRowMajor(m: SheetMemory) returns (display: Option<seq<seq<Display>>>)
    requires m.Valid()
    ensures display == if m.View().columns == 0 then None else Some(RowMajor(m.View()))
  {
    var memoryDisplayValues := m.GetSheetDisplayStrings();
    var inputRows := |memoryDisplayValues|;
    if inputRows == 0 {
      return None;
    }
    var inputColumns := |memoryDisplayValues[0]|;
    var guiDisplayValues := Transposed(memoryDisplayValues, inputRows, inputColumns);
    ghost var t := m.View();
    forall r | 0 <= r < t.rows
      ensures guiDisplayValues[r] == RowMajor(t)[r]
    {
      forall c | 0 <= c < t.columns
        ensures guiDisplayValues[r][c] == RowMajor(t)[r][c]
      {
        assert guiDisplayValues[r][c] == memoryDisplayValues[c][r];
      }
    }
    assert guiDisplayValues == RowMajor(t);
    display := Some(guiDisplayValues);
  }

  /** The nested loops of `getSheetDisplayStringsForGUI`: row r of the result is column r of the input. */
  method Transposed(memoryDisplayValues: seq<seq<Display>>, inputRows: nat, inputColumns: nat)
    returns (guiDisplayValues: seq<seq<Display>>)
    requires |memoryDisplayValues| == inputRows
    requires forall c :: 0 <= c < inputRows ==> |memoryDisplayValues[c]| == inputColumns
    ensures |guiDisplayValues| == inputColumns
    ensures forall r :: 0 <= r < inputColumns ==> |guiDisplayValues[r]| == inputRows
    ensures forall r, c :: 0 <= r < inputColumns && 0 <= c < inputRows ==>
      guiDisplayValues[r][c] == memoryDisplayValues[c][r]
  {
    guiDisplayValues := [];
    for outputRow := 0 to inputColumns
      invariant |guiDisplayValues| == outputRow
      invariant forall r :: 0 <= r < outputRow ==> |guiDisplayValues[r]| == inputRows
      invariant forall r, c :: 0 <= r < outputRow && 0 <= c < inputRows ==>
        guiDisplayValues[r][c] == memoryDisplayValues[c][r]
    {
      var line: seq<Display> := [];
      for outputColumn := 0 to inputRows
        invariant |line| == outputColumn
        invariant forall c :: 0 <= c < outputColumn ==> line[c] == memoryDisplayValues[c][outputRow]
      {
        line := line + [memoryDisplayValues[outputColumn][outputRow]];
      }
      guiDisplayValues := guiDisplayValues + [line];
    }
  }
}
