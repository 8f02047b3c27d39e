/**
  The spreadsheet controller's state as a value: the sheet, one record per user and the
  table of cells being edited. Each controller request is a function from one such state
  to the next, and the controller class is proved to follow these functions.

  A user record holds the cell the user is on, whether the user is editing it and the
  formula in the user's builder. The lock table maps a cell label to the user editing it.
 */
module Sessions {
  import opened Wrappers
  import opened Numbers
  import opened Cells
  import opened Formulas
  import opened Memory
  import opened Evaluation
  import opened Calculation
  import opened Circularity
  import opened SheetEvaluation

  datatype UserState = UserState(cellLabel: string, isEditing: bool, formula: seq<string>)

  datatype Session = Session(sheet: Sheet, users: map<string, UserState>, locks: map<string, string>)

  /** What `documentContainer` hands to a client: the stored sheet and the user's view of it. */
  datatype DocumentState = DocumentState(
    container: Container, currentCell: string, formula: string, result: Display, isEditing: bool)

  // ---------------------------------------------------------------------------
  // Invariants
  // ---------------------------------------------------------------------------

  /**
    What every request relies on: formulas and references name cells of the grid, every
    user is on a cell of the grid, and every builder's formula names cells of the grid.
    Each of these is an access past the end of the grid in the source when it fails.
   */
  predicate Ready(S: Session)
  {
    WellFormed(S.sheet) && FormulasInGrid(S.sheet) && DependenciesInGrid(S.sheet) &&
    forall u :: u in S.users ==>
      HasLabel(S.sheet, S.users[u].cellLabel) && ReferencesInGrid(S.sheet, S.users[u].formula)
  }

  /** Every lock is held by a registered user who is on the locked cell and editing it. */
  predicate LocksConsistent(S: Session)
  {
    forall l :: l in S.locks ==>
      S.locks[l] in S.users && S.users[S.locks[l]].cellLabel == l && S.users[S.locks[l]].isEditing
  }

  /** A fresh controller: a new sheet, no users and no locks. */
  function NewSession(columns: nat, rows: nat): (S: Session)
    ensures Ready(S) && LocksConsistent(S)
    ensures S.sheet.columns == columns && S.sheet.rows == rows && S.users == map[] && S.locks == map[]
  {
    Session(NewSheet(columns, rows), map[], map[])
  }

  // ---------------------------------------------------------------------------
  // Access requests
  // ---------------------------------------------------------------------------

  /** A view request reads the requested cell unless the user is already on it. */
  predicate ViewAllowed(S: Session, user: string, l: string)
  {
    (user in S.users && S.users[user].cellLabel == l) || HasLabel(S.sheet, l)
  }

  /**
    `requestViewAccess`: a new user is registered on the cell, not editing, with the cell's
    formula. A user already on the cell stops editing and its lock is dropped, whoever holds
    it. A user moving to another cell drops the lock on the cell left, takes the new cell's
    formula and keeps its editing flag.
   */
  function ViewAccess(S: Session, user: string, l: string): Session
    requires WellFormed(S.sheet) && ViewAllowed(S, user, l)
  {
    if user !in S.users then
      S.(users := S.users[user := UserState(l, false, Get(S.sheet, l).formula)])
    else if S.users[user].cellLabel == l then
      S.(users := S.users[user := S.users[user].(isEditing := false)],
         locks := if l in S.locks then S.locks - {l} else S.locks)
    else
      var previous := S.users[user].cellLabel;
      S.(users := S.users[user := S.users[user].(cellLabel := l, formula := Get(S.sheet, l).formula)],
         locks := if previous != "" && previous in S.locks then S.locks - {previous} else S.locks)
  }

  /**
    `requestEditAccess`: move to the cell first when the user is elsewhere; then succeed at
    once if the user holds the cell, fail if another user does, and otherwise lock the cell
    for the user and mark the user as editing.
   */
  function EditAccess(S: Session, user: string, l: string): (Session, bool)
    requires WellFormed(S.sheet) && ViewAllowed(S, user, l)
  {
    Acquire(EditTarget(S, user, l), user, l)
  }

  /**
    The lock checks of `requestEditAccess`, once the user is on cell l: the user who holds l
    succeeds, another holder refuses it, and a free cell is locked for the user, who is then
    editing. The lock on the cell the user was on before is dropped first.
   */
  function Acquire(T: Session, user: string, l: string): (Session, bool)
    requires user in T.users
  {
    if l in T.locks && T.locks[l] == user then (T, true)
    else if l in T.locks then (T, false)
    else
      var previous := T.users[user].cellLabel;
      var locks := if previous != "" && previous != l then T.locks - {previous} else T.locks;
      (T.(users := T.users[user := T.users[user].(isEditing := true)], locks := locks[l := user]), true)
  }

  /** `releaseEditAccess`: drop the lock on the user's cell and forget the user. */
  function Release(S: Session, user: string): Session
  {
    if user !in S.users then S
    else
      var editingCell := S.users[user].cellLabel;
      S.(users := S.users - {user},
         locks := if editingCell != "" && editingCell in S.locks then S.locks - {editingCell} else S.locks)
  }

  // ---------------------------------------------------------------------------
  // Formula edits
  // ---------------------------------------------------------------------------

  /** The user's builder now holds f. */
  function WithFormula(S: Session, user: string, f: seq<string>): Session
    requires user in S.users
  {
    S.(users := S.users[user := S.users[user].(formula := f)])
  }

  /** The step every edit ends with: the builder's formula goes into the user's cell and the sheet is recomputed. */
  function Stored(S: Session, user: string): Session
    requires Ready(S) && user in S.users
  {
    var l := S.users[user].cellLabel;
    FormulaWriteInGrid(S.sheet, l, S.users[user].formula);
    S.(sheet := AfterEvaluation(PutLabel(S.sheet, l, Get(S.sheet, l).(formula := S.users[user].formula))))
  }

  /**
    `addToken`: nothing happens unless the user is editing; otherwise the token goes into the
    builder and the builder's formula into the user's cell. For an unregistered user the
    source throws a `TypeError` before it changes anything, so the session stays as it was.
   */
  function AddToken(S: Session, token: string, user: string): Session
    requires Ready(S) && ReferencesInGrid(S.sheet, [token])
  {
    if user !in S.users || !S.users[user].isEditing then S
    else
      AppendTokenInGrid(S.sheet, S.users[user].formula, token);
      Stored(WithFormula(S, user, AppendToken(S.users[user].formula, token)), user)
  }

  /** The cycle check reads the referenced cell, so a registered user may only insert a cell of the grid. */
  predicate CellAllowed(S: Session, cellReference: string, user: string)
  {
    user in S.users ==> HasLabel(S.sheet, cellReference)
  }

  /**
    `addCell`: nothing happens for an unknown user, a user on no cell, a reference to the
    user's own cell, or a reference the cycle check refuses (or overflows on); otherwise the
    reference is added as a token.
   */
  function AddCell(S: Session, cellReference: string, user: string): Session
    requires Ready(S) && CellAllowed(S, cellReference, user)
  {
    if user !in S.users || S.users[user].cellLabel == "" || cellReference == S.users[user].cellLabel then S
    else
      match OkToAdd(S.sheet, S.users[user].cellLabel, cellReference, Frames(S.sheet))
      case Some(true) => AddToken(S, cellReference, user)
      case _ => S
  }

  /** `removeToken`: for any registered user on a cell, editing or not. */
  function RemoveToken(S: Session, user: string): Session
    requires Ready(S)
  {
    if user !in S.users || S.users[user].cellLabel == "" then S
    else
      RemoveLastInGrid(S.sheet, S.users[user].formula);
      Stored(WithFormula(S, user, RemoveLast(S.users[user].formula)), user)
  }

  /** `clearFormula`: for any registered user on a cell, editing or not. */
  function ClearFormula(S: Session, user: string): Session
    requires Ready(S)
  {
    if user !in S.users || S.users[user].cellLabel == "" then S
    else Stored(WithFormula(S, user, []), user)
  }

  // ---------------------------------------------------------------------------
  // Queries
  // ---------------------------------------------------------------------------

  /** `getFormulaStringForUser`: the cell is the authority, so the builder is reloaded from it first. */
  function FormulaStringFor(S: Session, user: string): (Session, string)
    requires Ready(S)
  {
    if user !in S.users then (S, "")
    else
      var f := Get(S.sheet, S.users[user].cellLabel).formula;
      (WithFormula(S, user, f), Join(f))
  }

  function ResultStringFor(S: Session, user: string): Display
    requires Ready(S)
  {
    if user !in S.users then Text("") else DisplayString(Get(S.sheet, S.users[user].cellLabel))
  }

  function WorkingCellLabel(S: Session, user: string): string
  {
    if user !in S.users then "" else S.users[user].cellLabel
  }

  function EditStatus(S: Session, user: string): bool
  {
    user in S.users && S.users[user].cellLabel != ""
  }

  function EditStatusString(S: Session, user: string): string
  {
    if user !in S.users || S.users[user].cellLabel == "" then "browsing"
    else "editing: " + S.users[user].cellLabel
  }

  /** The display strings with one row per sheet row. */
  function RowMajor(s: Sheet): seq<seq<Display>>
    requires WellFormed(s)
  {
    seq(s.rows, r requires 0 <= r < s.rows =>
      seq(s.columns, c requires 0 <= c < s.columns && 0 <= r < s.rows => DisplayString(s.cells[c][r])))
  }

  /**
    `getSheetDisplayStringsForGUI`: compute the order, recompute the sheet, then transpose
    the display strings. `None` is a crash: the order overflows the call stack on a cycle
    (first on the stored references, then on the rebuilt ones), and a sheet without columns
    has no first column to measure.
   */
  function GuiDisplay(S: Session): (Session, Option<seq<seq<Display>>>)
    requires Ready(S)
  {
    if ComputationOrder(S.sheet).None? then (S, None)
    else
      var T := S.(sheet := AfterEvaluation(S.sheet));
      if ComputationOrder(WithDependencies(S.sheet)).None? || S.sheet.columns == 0 then (T, None)
      else (T, Some(RowMajor(T.sheet)))
  }

  /** `documentContainer`: an unknown user is first given view access to A1. */
  function DocumentContainer(S: Session, user: string): (Session, DocumentState)
    requires Ready(S) && (user in S.users || HasLabel(S.sheet, "A1"))
  {
    var S1 := if user !in S.users then ViewAccess(S, user, "A1") else S;
    if user !in S.users then
      ViewAccessReady(S, user, "A1");
      assert user in S1.users;
      DocumentOf(S, S1, user)
    else DocumentOf(S, S1, user)
  }

  /** The document of a user who has a record in S1, a session reached from S. */
  function DocumentOf(S: Session, S1: Session, user: string): (Session, DocumentState)
    requires Ready(S) && Ready(S1) && user in S1.users
  {
    var (S2, formula) := FormulaStringFor(S1, user);
    (S2, DocumentState(ContainerOf(S.sheet), S1.users[user].cellLabel, formula,
                       ResultStringFor(S2, user), S1.users[user].isEditing))
  }

  // ---------------------------------------------------------------------------
  // Cells of the grid
  // ---------------------------------------------------------------------------

  /** A number starts with a digit or '.', so it is never a cell label. */
  lemma NumberIsNoLabel(t: string)
    requires IsNumber(t)
    ensures |t| > 0 && !IsUpper(t[0]) && !IsValidCellLabel(t)
  {
    assert IsDigit(t[0]) || t[0] == '.';
  }

  /** Editing keys into a formula never makes it name a cell outside the grid. */
  lemma AppendTokenInGrid(s: Sheet, f: seq<string>, t: string)
    requires ReferencesInGrid(s, f) && ReferencesInGrid(s, [t])
    ensures ReferencesInGrid(s, AppendToken(f, t))
  {
    if f != [] && IsNumber(Last(f)) && IsNumber(t) {
      NumberIsNoLabel(Last(f));
      assert (Last(f) + t)[0] == Last(f)[0];
      assert forall x :: x in AppendToken(f, t) ==> x in f[..|f| - 1] || x == Last(f) + t;
    } else if f != [] && t == "." && IsNumber(Last(f)) && '.' !in Last(f) {
      NumberIsNoLabel(Last(f));
      assert (Last(f) + ".")[0] == Last(f)[0];
      assert forall x :: x in AppendToken(f, t) ==> x in f[..|f| - 1] || x == Last(f) + ".";
    } else {
      assert forall x :: x in AppendToken(f, t) ==> x in f || x == t;
    }
  }

  lemma RemoveLastInGrid(s: Sheet, f: seq<string>)
    requires ReferencesInGrid(s, f)
    ensures ReferencesInGrid(s, RemoveLast(f))
  {
    if f != [] && IsNumber(Last(f)) && |Last(f)| > 1 {
      var l := Last(f);
      NumberIsNoLabel(l);
      assert l[..|l| - 1][0] == l[0];
      assert forall x :: x in RemoveLast(f) ==> x in f[..|f| - 1] || x == l[..|l| - 1];
    } else if f != [] {
      assert forall x :: x in RemoveLast(f) ==> x in f;
    }
  }

  /** Writing a formula that names cells of the grid keeps every formula in the grid. */
  lemma FormulaWriteInGrid(s: Sheet, l: string, f: seq<string>)
    requires WellFormed(s) && FormulasInGrid(s) && HasLabel(s, l) && ReferencesInGrid(s, f)
    ensures FormulasInGrid(PutLabel(s, l, Get(s, l).(formula := f)))
  {
    var t := PutLabel(s, l, Get(s, l).(formula := f));
    forall c, r | 0 <= c < t.columns && 0 <= r < t.rows
      ensures ReferencesInGrid(t, t.cells[c][r].formula)
    {
      if (c, r) != (Column(s, l), Row(s, l)) {
        assert t.cells[c][r] == s.cells[c][r];
      }
    }
  }

  /** A recomputed sheet has its references rebuilt from formulas of the grid, so they name cells of the grid. */
  lemma AfterEvaluationInGrid(s: Sheet)
    requires WellFormed(s) && FormulasInGrid(s)
    ensures var t := AfterEvaluation(s);
      WellFormed(t) && t.columns == s.columns && t.rows == s.rows &&
      FormulasInGrid(t) && DependenciesInGrid(t)
  {
    var t := AfterEvaluation(s);
    AfterEvaluationKeeps(s);
    forall c, r | 0 <= c < t.columns && 0 <= r < t.rows
      ensures ReferencesInGrid(t, t.cells[c][r].formula)
      ensures forall d :: d in t.cells[c][r].dependsOn ==> HasLabel(t, d)
    {
      assert InGrid(s, c, r);
      CellReferencesMembers(s.cells[c][r].formula);
    }
  }

  /** t has the size of s, and every cell of t other than the one at l has the formula it has in s. */
  ghost predicate OtherFormulasKept(s: Sheet, t: Sheet, l: string)
    requires WellFormed(s) && WellFormed(t) && HasLabel(s, l)
  {
    t.columns == s.columns && t.rows == s.rows &&
    forall c, r :: InGrid(s, c, r) && (c, r) != (Column(s, l), Row(s, l)) ==>
      t.cells[c][r].formula == s.cells[c][r].formula
  }

  /** Storing a builder's formula keeps the invariants. */
  lemma StoredReady(S: Session, user: string)
    requires Ready(S) && user in S.users
    ensures Ready(Stored(S, user))
  {
    var l := S.users[user].cellLabel;
    FormulaWriteInGrid(S.sheet, l, S.users[user].formula);
    AfterEvaluationInGrid(PutLabel(S.sheet, l, Get(S.sheet, l).(formula := S.users[user].formula)));
  }

  /** What a store does to the sheet, with what the controller needs to carry it out. */
  lemma StoredSheet(S: Session, user: string)
    requires Ready(S) && user in S.users
    ensures var l, f := S.users[user].cellLabel, S.users[user].formula;
      HasLabel(S.sheet, l) && FormulasInGrid(PutLabel(S.sheet, l, Get(S.sheet, l).(formula := f))) &&
      Ready(Stored(S, user)) && (LocksConsistent(S) ==> LocksConsistent(Stored(S, user))) &&
      Stored(S, user) == S.(sheet := AfterEvaluation(PutLabel(S.sheet, l, Get(S.sheet, l).(formula := f))))
  {
    StoredReady(S, user);
    FormulaWriteInGrid(S.sheet, S.users[user].cellLabel, S.users[user].formula);
  }

  /**
    Storing a builder's formula writes exactly that formula into the user's cell, recomputes
    the sheet and leaves every user and lock as it was.
   */
  lemma StoredKeeps(S: Session, user: string)
    requires Ready(S) && user in S.users
    ensures var T := Stored(S, user);
      Ready(T) && T.users == S.users && T.locks == S.locks &&
      Get(T.sheet, S.users[user].cellLabel).formula == S.users[user].formula &&
      OtherFormulasKept(S.sheet, T.sheet, S.users[user].cellLabel)
  {
    var l := S.users[user].cellLabel;
    FormulaWriteInGrid(S.sheet, l, S.users[user].formula);
    var s1 := PutLabel(S.sheet, l, Get(S.sheet, l).(formula := S.users[user].formula));
    AfterEvaluationInGrid(s1);
    AfterEvaluationKeeps(s1);
    assert InGrid(s1, Column(S.sheet, l), Row(S.sheet, l));
  }

  // ---------------------------------------------------------------------------
  // The lock table
  // ---------------------------------------------------------------------------

  /**
    A view request keeps the invariants, puts the user on the cell, leaves every other user
    as it was and never grants a lock: every lock after it was there before, with the same holder.
   */
  lemma ViewAccessKeeps(S: Session, user: string, l: string)
    requires Ready(S) && ViewAllowed(S, user, l)
    ensures var T := ViewAccess(S, user, l);
      Ready(T) && (LocksConsistent(S) ==> LocksConsistent(T)) &&
      T.sheet == S.sheet && user in T.users && T.users[user].cellLabel == l &&
      (forall u :: u in S.users && u != user ==> u in T.users && T.users[u] == S.users[u]) &&
      (forall u :: u in T.users ==> u in S.users || u == user) &&
      (forall k :: k in T.locks ==> k in S.locks && T.locks[k] == S.locks[k])
  {
    ViewAccessReady(S, user, l);
    ViewAccessFrame(S, user, l);
  }

  /** What a view request leaves alone: the sheet, the other users and the holders of the remaining locks. */
  lemma ViewAccessFrame(S: Session, user: string, l: string)
    requires WellFormed(S.sheet) && ViewAllowed(S, user, l)
    ensures var T := ViewAccess(S, user, l);
      T.sheet == S.sheet && user in T.users && T.users[user].cellLabel == l &&
      (forall u :: u in S.users && u != user ==> u in T.users && T.users[u] == S.users[u]) &&
      (forall u :: u in T.users ==> u in S.users || u == user) &&
      (forall k :: k in T.locks ==> k in S.locks && T.locks[k] == S.locks[k])
  {
    var T := ViewAccess(S, user, l);
    if user !in S.users {
      assert T.locks == S.locks;
    } else if S.users[user].cellLabel == l {
      assert T.users == S.users[user := S.users[user].(isEditing := false)];
    } else {
      assert T.users == S.users[user := S.users[user].(cellLabel := l, formula := Get(S.sheet, l).formula)];
    }
  }

  /** The invariants alone, as the controller needs them after a view request. */
  lemma ViewAccessReady(S: Session, user: string, l: string)
    requires Ready(S) && ViewAllowed(S, user, l)
    ensures Ready(ViewAccess(S, user, l))
    ensures LocksConsistent(S) ==> LocksConsistent(ViewAccess(S, user, l))
  {
    var T := ViewAccess(S, user, l);
    if user !in S.users {
      assert ReferencesInGrid(S.sheet, S.sheet.cells[Column(S.sheet, l)][Row(S.sheet, l)].formula);
      UserUpdateReady(S, user, T.users[user], T.locks);
      if LocksConsistent(S) {
        UserUpdateLocks(S, user, T.users[user], T.locks);
      }
    } else if S.users[user].cellLabel == l {
      UserUpdateReady(S, user, T.users[user], T.locks);
      if LocksConsistent(S) {
        UserUpdateLocks(S, user, T.users[user], T.locks);
      }
    } else {
      assert ReferencesInGrid(S.sheet, S.sheet.cells[Column(S.sheet, l)][Row(S.sheet, l)].formula);
      UserUpdateReady(S, user, T.users[user], T.locks);
      if LocksConsistent(S) {
        UserUpdateLocks(S, user, T.users[user], T.locks);
      }
    }
  }

  /** A user record on a cell of the grid, with a formula naming cells of the grid, keeps the invariants. */
  lemma UserUpdateReady(S: Session, user: string, x: UserState, locks: map<string, string>)
    requires Ready(S) && HasLabel(S.sheet, x.cellLabel) && ReferencesInGrid(S.sheet, x.formula)
    ensures Ready(Session(S.sheet, S.users[user := x], locks))
  {
  }

  /**
    Replacing a user's record and dropping locks keeps the locks consistent when every lock
    the user still holds is on the record's cell, which the user is editing.
   */
  lemma UserUpdateLocks(S: Session, user: string, x: UserState, locks: map<string, string>)
    requires LocksConsistent(S)
    requires forall k :: k in locks ==> k in S.locks && locks[k] == S.locks[k]
    requires forall k :: k in locks && locks[k] == user ==> x.cellLabel == k && x.isEditing
    ensures LocksConsistent(Session(S.sheet, S.users[user := x], locks))
  {
  }

  /** Each user holds at most one lock: the one on the cell the user is on. */
  lemma OneLockPerUser(S: Session, l1: string, l2: string)
    requires LocksConsistent(S) && l1 in S.locks && l2 in S.locks && S.locks[l1] == S.locks[l2]
    ensures l1 == l2
  {
  }

  /** The cell an edit request moves the user to before it looks at the lock table. */
  function EditTarget(S: Session, user: string, l: string): Session
    requires WellFormed(S.sheet) && ViewAllowed(S, user, l)
  {
    if user in S.users && S.users[user].cellLabel == l then S else ViewAccess(S, user, l)
  }

  lemma EditTargetKeeps(S: Session, user: string, l: string)
    requires Ready(S) && ViewAllowed(S, user, l)
    ensures var T := EditTarget(S, user, l);
      Ready(T) && (LocksConsistent(S) ==> LocksConsistent(T)) &&
      T.sheet == S.sheet && user in T.users && T.users[user].cellLabel == l &&
      (forall u :: u in S.users && u != user ==> u in T.users && T.users[u] == S.users[u]) &&
      (forall k :: k in T.locks ==> k in S.locks && T.locks[k] == S.locks[k]) &&
      (l in S.locks && S.locks[l] != user ==> l in T.locks)
  {
    if !(user in S.users && S.users[user].cellLabel == l) {
      ViewAccessKeeps(S, user, l);
    }
  }

  /** An edit request keeps the invariants, leaves the user on the cell and every other user as they were. */
  lemma EditAccessKeeps(S: Session, user: string, l: string)
    requires Ready(S) && ViewAllowed(S, user, l)
    ensures var (T, ok) := EditAccess(S, user, l);
      Ready(T) && (LocksConsistent(S) ==> LocksConsistent(T)) &&
      T.sheet == S.sheet && user in T.users && T.users[user].cellLabel == l &&
      (forall u :: u in S.users && u != user ==> u in T.users && T.users[u] == S.users[u])
  {
    EditTargetKeeps(S, user, l);
    AcquireKeeps(EditTarget(S, user, l), user, l);
  }

  /** The lock checks, for a user already on cell l, keep the session ready and its locks consistent. */
  lemma AcquireKeeps(T: Session, user: string, l: string)
    requires Ready(T) && user in T.users && T.users[user].cellLabel == l
    ensures var (T', ok) := Acquire(T, user, l);
      Ready(T') && (LocksConsistent(T) ==> LocksConsistent(T')) &&
      T'.sheet == T.sheet && user in T'.users && T'.users[user].cellLabel == l &&
      (forall u :: u in T.users && u != user ==> u in T'.users && T'.users[u] == T.users[u])
  {
    if l in T.locks {
      assert Acquire(T, user, l).0 == T;
    } else {
      var x := T.users[user].(isEditing := true);
      assert Acquire(T, user, l).0 == Session(T.sheet, T.users[user := x], T.locks[l := user]);
      UserUpdateReady(T, user, x, T.locks[l := user]);
      if LocksConsistent(T) {
        LockGranted(T, user, x, l);
      }
    }
  }

  /** Granting a free cell's lock to a user on that cell, now editing it, keeps the locks consistent. */
  lemma LockGranted(S: Session, user: string, x: UserState, l: string)
    requires LocksConsistent(S) && user in S.users && S.users[user].cellLabel == l && l !in S.locks
    requires x.cellLabel == l && x.isEditing
    ensures LocksConsistent(Session(S.sheet, S.users[user := x], S.locks[l := user]))
  {
    var T := Session(S.sheet, S.users[user := x], S.locks[l := user]);
    forall k | k in T.locks
      ensures T.locks[k] in T.users && T.users[T.locks[k]].cellLabel == k && T.users[T.locks[k]].isEditing
    {
      if k != l {
        assert S.locks[k] != user;
      }
    }
  }

  /**
    An edit request succeeds exactly when the user holds the cell's lock afterwards, and a
    user who succeeds is editing.
   */
  lemma EditAccessOutcome(S: Session, user: string, l: string)
    requires Ready(S) && ViewAllowed(S, user, l)
    ensures var (T, ok) := EditAccess(S, user, l);
      user in T.users && (ok <==> l in T.locks && T.locks[l] == user) &&
      (LocksConsistent(S) && ok ==> T.users[user].isEditing)
  {
    EditTargetKeeps(S, user, l);
    var T := EditTarget(S, user, l);
    assert EditAccess(S, user, l) ==
      if l in T.locks then (T, T.locks[l] == user)
      else (T.(users := T.users[user := T.users[user].(isEditing := true)], locks := T.locks[l := user]), true);
  }

  /** On a cell nobody holds, an edit request succeeds, locks the cell for the user and marks the user as editing. */
  lemma EditAccessGranted(S: Session, user: string, l: string)
    requires Ready(S) && ViewAllowed(S, user, l) && l !in S.locks
    ensures var (T, ok) := EditAccess(S, user, l);
      ok && l in T.locks && T.locks[l] == user && T.users[user].cellLabel == l && T.users[user].isEditing
  {
    EditTargetKeeps(S, user, l);
  }

  /** A user who holds the cell gets it again, and nothing changes. */
  lemma EditAccessHeld(S: Session, user: string, l: string)
    requires Ready(S) && LocksConsistent(S) && l in S.locks && S.locks[l] == user
    ensures ViewAllowed(S, user, l) && EditAccess(S, user, l) == (S, true)
  {
  }

  /** A cell another user holds is refused, and its lock stays with that user. */
  lemma EditAccessRefused(S: Session, user: string, l: string)
    requires Ready(S) && ViewAllowed(S, user, l) && l in S.locks && S.locks[l] != user
    ensures var (T, ok) := EditAccess(S, user, l);
      !ok && l in T.locks && T.locks[l] == S.locks[l]
  {
    EditTargetKeeps(S, user, l);
  }

  /** Releasing keeps the invariants, forgets the user and leaves the user holding no lock. */
  lemma ReleaseKeeps(S: Session, user: string)
    requires Ready(S) && LocksConsistent(S)
    ensures var T := Release(S, user);
      Ready(T) && LocksConsistent(T) && T.sheet == S.sheet && user !in T.users &&
      (forall k :: k in T.locks ==> T.locks[k] != user) &&
      (forall u :: u in S.users && u != user ==> u in T.users && T.users[u] == S.users[u])
  {
    if user in S.users {
      var T := Release(S, user);
      var e := S.users[user].cellLabel;
      forall k | k in T.locks
        ensures T.locks[k] != user && T.locks[k] in T.users
      {
        assert k in S.locks && k != e && T.locks[k] == S.locks[k];
      }
    }
  }

  /** Once the holder of a cell has released it, another user's edit request for the cell succeeds. */
  lemma ReleaseThenAcquire(S: Session, holder: string, other: string, l: string)
    requires Ready(S) && LocksConsistent(S) && l in S.locks && S.locks[l] == holder && other != holder
    ensures var T := Release(S, holder);
      ViewAllowed(T, other, l) && l !in T.locks && EditAccess(T, other, l).1 &&
      EditAccess(T, other, l).0.locks[l] == other
  {
    var T := Release(S, holder);
    ReleaseKeeps(S, holder);
    EditAccessGranted(T, other, l);
  }

  // ---------------------------------------------------------------------------
  // What the source does not guarantee
  // ---------------------------------------------------------------------------

  /**
    Moving to another cell keeps the editing flag. A user who was editing and asks for a
    cell another user holds is refused, yet ends up on that cell still marked as editing, and
    the next token the user adds goes into the other user's locked cell.
   */
  lemma StaleEditing(S: Session, holder: string, user: string, l: string, token: string)
    requires Ready(S) && LocksConsistent(S) && l in S.locks && S.locks[l] == holder && holder != user
    requires user in S.users && S.users[user].isEditing && S.users[user].cellLabel != l
    requires ReferencesInGrid(S.sheet, [token])
    ensures ViewAllowed(S, user, l)
    ensures var (T, ok) := EditAccess(S, user, l);
      !ok && T.locks[l] == holder && T.users[user].cellLabel == l && T.users[user].isEditing &&
      Ready(T) && Get(AddToken(T, token, user).sheet, l).formula == AppendToken(Get(S.sheet, l).formula, token) &&
      AddToken(T, token, user).locks[l] == holder
  {
    assert HasLabel(S.sheet, l);
    ViewAccessKeeps(S, user, l);
    EditAccessRefused(S, user, l);
    var (T, ok) := EditAccess(S, user, l);
    AppendTokenInGrid(T.sheet, T.users[user].formula, token);
    StoredKeeps(WithFormula(T, user, AppendToken(T.users[user].formula, token)), user);
  }

  /** A view request on the cell the user is on drops that cell's lock even when another user holds it. */
  lemma ViewDropsForeignLock(S: Session, holder: string, user: string, l: string)
    requires LocksConsistent(S) && l in S.locks && S.locks[l] == holder && holder != user
    requires user in S.users && S.users[user].cellLabel == l && WellFormed(S.sheet)
    ensures var T := ViewAccess(S, user, l);
      l !in T.locks && holder in T.users && T.users[holder] == S.users[holder]
  {
  }

  // ---------------------------------------------------------------------------
  // Formula edits
  // ---------------------------------------------------------------------------

  /**
    Every edit ends the same way: the builder holds f, the invariants hold and the lock table
    is as it was.
   */
  lemma EditKeeps(S: Session, user: string, f: seq<string>)
    requires Ready(S) && user in S.users && ReferencesInGrid(S.sheet, f)
    ensures var T := Stored(WithFormula(S, user, f), user);
      Ready(T) && (LocksConsistent(S) ==> LocksConsistent(T)) && T.locks == S.locks &&
      T.users == S.users[user := S.users[user].(formula := f)]
  {
    var S1 := WithFormula(S, user, f);
    WithFormulaInGrid(S, user, f);
    StoredReady(S1, user);
    var T := Stored(S1, user);
    assert T.locks == S.locks && T.users == S1.users;
    if LocksConsistent(S) {
      FormulaOnlyLocks(S, T, user, f);
    }
  }

  /** A change to a user's formula alone keeps the locks consistent. */
  lemma FormulaOnlyLocks(S: Session, T: Session, user: string, f: seq<string>)
    requires LocksConsistent(S) && user in S.users
    requires T.locks == S.locks && T.users == S.users[user := S.users[user].(formula := f)]
    ensures LocksConsistent(T)
  {
  }

  /** An edit writes f into the user's cell and no other formula changes. */
  lemma EditWrites(S: Session, user: string, f: seq<string>)
    requires Ready(S) && user in S.users && ReferencesInGrid(S.sheet, f)
    ensures var T := Stored(WithFormula(S, user, f), user);
      WellFormed(T.sheet) && HasLabel(T.sheet, S.users[user].cellLabel) &&
      Get(T.sheet, S.users[user].cellLabel).formula == f &&
      OtherFormulasKept(S.sheet, T.sheet, S.users[user].cellLabel)
  {
    var S1 := WithFormula(S, user, f);
    WithFormulaInGrid(S, user, f);
    StoredKeeps(S1, user);
  }

  /** A builder formula that names cells of the grid keeps the invariants. */
  lemma WithFormulaReady(S: Session, user: string, f: seq<string>)
    requires Ready(S) && LocksConsistent(S) && user in S.users && ReferencesInGrid(S.sheet, f)
    ensures Ready(WithFormula(S, user, f)) && LocksConsistent(WithFormula(S, user, f))
  {
    WithFormulaInGrid(S, user, f);
    FormulaOnlyLocks(S, WithFormula(S, user, f), user, f);
  }

  /** The invariants alone for a builder formula that names cells of the grid. */
  lemma WithFormulaInGrid(S: Session, user: string, f: seq<string>)
    requires Ready(S) && user in S.users && ReferencesInGrid(S.sheet, f)
    ensures Ready(WithFormula(S, user, f))
  {
    var x := S.users[user].(formula := f);
    UserUpdateReady(S, user, x, S.locks);
    assert WithFormula(S, user, f) == Session(S.sheet, S.users[user := x], S.locks);
  }

  /** A token changes nothing unless the user is registered and editing. */
  lemma AddTokenIdle(S: Session, token: string, user: string)
    requires Ready(S) && ReferencesInGrid(S.sheet, [token]) && (user !in S.users || !S.users[user].isEditing)
    ensures AddToken(S, token, user) == S
  {
  }

  /**
    For an editing user the builder takes the token and the user's cell takes the builder's
    formula; the invariants hold and the lock table is as it was.
   */
  lemma AddTokenEffect(S: Session, token: string, user: string)
    requires Ready(S) && user in S.users && ReferencesInGrid(S.sheet, [token]) && S.users[user].isEditing
    ensures var T := AddToken(S, token, user);
      Ready(T) && (LocksConsistent(S) ==> LocksConsistent(T)) && T.locks == S.locks &&
      T.users == S.users[user := S.users[user].(formula := AppendToken(S.users[user].formula, token))] &&
      Get(T.sheet, S.users[user].cellLabel).formula == AppendToken(S.users[user].formula, token)
  {
    var f := AppendToken(S.users[user].formula, token);
    AppendTokenInGrid(S.sheet, S.users[user].formula, token);
    EditKeeps(S, user, f);
    EditWrites(S, user, f);
    assert AddToken(S, token, user) == Stored(WithFormula(S, user, f), user);
  }

  /** After an edit whose rebuilt sheet gets an order, every cell holds what its formula evaluates to. */
  lemma AddTokenRecomputes(S: Session, token: string, user: string)
    requires Ready(S) && user in S.users && ReferencesInGrid(S.sheet, [token]) && S.users[user].isEditing
    requires var f := AppendToken(S.users[user].formula, token);
      var l := S.users[user].cellLabel;
      ComputationOrder(WithDependencies(PutLabel(S.sheet, l, Get(S.sheet, l).(formula := f)))).Some?
    ensures var T := AddToken(S, token, user);
      Ready(T) && forall c, r :: InGrid(T.sheet, c, r) ==>
        HasLabel(T.sheet, ColumnRowToCell(c, r)) && Agrees(T.sheet, ColumnRowToCell(c, r))
  {
    var f := AppendToken(S.users[user].formula, token);
    var l := S.users[user].cellLabel;
    AppendTokenInGrid(S.sheet, S.users[user].formula, token);
    FormulaWriteInGrid(S.sheet, l, f);
    var s1 := PutLabel(S.sheet, l, Get(S.sheet, l).(formula := f));
    EvaluateSheetConsistent(s1);
    AddTokenEffect(S, token, user);
    var S1 := WithFormula(S, user, f);
    WithFormulaInGrid(S, user, f);
    assert AddToken(S, token, user) == Stored(S1, user);
    assert Stored(S1, user).sheet == AfterEvaluation(s1);
  }

  /** A cell reference changes nothing for an unknown user or a reference to the user's own cell. */
  lemma AddCellIgnored(S: Session, cellReference: string, user: string)
    requires Ready(S) && CellAllowed(S, cellReference, user)
    requires user !in S.users || cellReference == S.users[user].cellLabel
    ensures AddCell(S, cellReference, user) == S
  {
  }

  /** A reference the user's cell already has is always added. */
  lemma AddCellExisting(S: Session, cellReference: string, user: string)
    requires Ready(S) && user in S.users && HasLabel(S.sheet, cellReference)
    requires cellReference != S.users[user].cellLabel
    requires cellReference in Get(S.sheet, S.users[user].cellLabel).dependsOn
    ensures CellAllowed(S, cellReference, user)
    ensures AddCell(S, cellReference, user) == AddToken(S, cellReference, user)
  {
    var current := S.users[user].cellLabel;
    assert OkToAdd(S.sheet, current, cellReference, Frames(S.sheet)) == Some(true);
  }

  /**
    A new reference from which the user's cell can be reached would close a cycle, and is
    never added (one the cell already has is, as `AddCellExisting` states).
   */
  lemma AddCellRefusesCycle(S: Session, cellReference: string, user: string, x: string)
    requires Ready(S) && user in S.users && HasLabel(S.sheet, cellReference)
    requires cellReference != S.users[user].cellLabel
    requires cellReference !in Get(S.sheet, S.users[user].cellLabel).dependsOn
    requires x in Get(S.sheet, S.users[user].cellLabel).dependsOn + [cellReference]
    requires Reaches(S.sheet, x, S.users[user].cellLabel)
    ensures CellAllowed(S, cellReference, user)
    ensures AddCell(S, cellReference, user) == S
  {
    var current := S.users[user].cellLabel;
    var answer := OkToAdd(S.sheet, current, cellReference, Frames(S.sheet));
    if answer.Some? {
      OkToAddMeaning(S.sheet, current, cellReference, Frames(S.sheet));
      assert answer == Some(false);
    }
  }

  /** Adding a cell keeps the invariants and the lock table. */
  lemma AddCellKeeps(S: Session, cellReference: string, user: string)
    requires Ready(S) && CellAllowed(S, cellReference, user)
    ensures var T := AddCell(S, cellReference, user);
      Ready(T) && (LocksConsistent(S) ==> LocksConsistent(T)) && T.locks == S.locks && T.users.Keys == S.users.Keys
  {
    if user in S.users && S.users[user].isEditing && S.users[user].cellLabel != "" &&
       cellReference != S.users[user].cellLabel &&
       OkToAdd(S.sheet, S.users[user].cellLabel, cellReference, Frames(S.sheet)) == Some(true)
    {
      var f := AppendToken(S.users[user].formula, cellReference);
      assert ReferencesInGrid(S.sheet, [cellReference]);
      AppendTokenInGrid(S.sheet, S.users[user].formula, cellReference);
      EditKeeps(S, user, f);
      WithFormulaInGrid(S, user, f);
      assert AddCell(S, cellReference, user) == Stored(WithFormula(S, user, f), user);
    } else {
      assert AddCell(S, cellReference, user) == S;
    }
  }

  /**
    Removing a token acts for any registered user, editing or not: the builder loses its
    last key and the user's cell takes the result.
   */
  lemma RemoveTokenEffect(S: Session, user: string)
    requires Ready(S) && user in S.users
    ensures var T := RemoveToken(S, user);
      Ready(T) && (LocksConsistent(S) ==> LocksConsistent(T)) && T.locks == S.locks &&
      T.users == S.users[user := S.users[user].(formula := RemoveLast(S.users[user].formula))] &&
      Get(T.sheet, S.users[user].cellLabel).formula == RemoveLast(S.users[user].formula)
  {
    var f := RemoveLast(S.users[user].formula);
    RemoveLastInGrid(S.sheet, S.users[user].formula);
    EditKeeps(S, user, f);
    EditWrites(S, user, f);
    assert RemoveToken(S, user) == Stored(WithFormula(S, user, f), user);
  }

  /** Clearing acts for any registered user, editing or not, and leaves the user's cell with no formula. */
  lemma ClearFormulaEffect(S: Session, user: string)
    requires Ready(S) && user in S.users
    ensures var T := ClearFormula(S, user);
      Ready(T) && (LocksConsistent(S) ==> LocksConsistent(T)) && T.locks == S.locks &&
      T.users == S.users[user := S.users[user].(formula := [])] &&
      Get(T.sheet, S.users[user].cellLabel).formula == []
  {
    assert S.users[user].cellLabel != "";
    assert ClearFormula(S, user) == Stored(WithFormula(S, user, []), user);
    EditKeeps(S, user, []);
    EditWrites(S, user, []);
  }

  /** Unknown users have nothing to remove or clear. */
  lemma RemoveAndClearUnknown(S: Session, user: string)
    requires Ready(S) && user !in S.users
    ensures RemoveToken(S, user) == S && ClearFormula(S, user) == S
  {
  }

  // ---------------------------------------------------------------------------
  // Queries
  // ---------------------------------------------------------------------------

  /** The invariants alone: a cell's formula names cells of the grid, so reloading a builder from it keeps them. */
  lemma FormulaStringForReady(S: Session, user: string)
    requires Ready(S) && LocksConsistent(S)
    ensures Ready(FormulaStringFor(S, user).0) && LocksConsistent(FormulaStringFor(S, user).0)
  {
    if user in S.users {
      var l := S.users[user].cellLabel;
      assert ReferencesInGrid(S.sheet, S.sheet.cells[Column(S.sheet, l)][Row(S.sheet, l)].formula);
    }
  }

  /** A registered user's formula string is the cell's formula, and the builder is reloaded from the cell. */
  lemma FormulaStringForEffect(S: Session, user: string)
    requires Ready(S)
    ensures var (T, text) := FormulaStringFor(S, user);
      Ready(T) && (LocksConsistent(S) ==> LocksConsistent(T)) && T.sheet == S.sheet && T.locks == S.locks &&
      (user !in S.users ==> T == S && text == "") &&
      (user in S.users ==>
        text == Join(Get(S.sheet, S.users[user].cellLabel).formula) &&
        T.users == S.users[user := S.users[user].(formula := Get(S.sheet, S.users[user].cellLabel).formula)])
  {
    if user in S.users {
      var l := S.users[user].cellLabel;
      assert ReferencesInGrid(S.sheet, S.sheet.cells[Column(S.sheet, l)][Row(S.sheet, l)].formula);
    }
  }

  /** In a ready session the status is "editing" exactly for registered users, and names their cell. */
  lemma EditStatusIff(S: Session, user: string)
    requires Ready(S)
    ensures EditStatus(S, user) <==> user in S.users
    ensures EditStatusString(S, user) == "browsing" <==> user !in S.users
    ensures user in S.users ==> EditStatusString(S, user) == "editing: " + WorkingCellLabel(S, user)
  {
    if user in S.users {
      assert S.users[user].cellLabel != "";
      assert ("editing: " + S.users[user].cellLabel)[0] == 'e';
    }
  }

  /** Row r, column c of the display holds what cell (c, r) shows after the recomputation. */
  lemma GuiDisplayRowMajor(S: Session)
    requires Ready(S)
    ensures var (T, display) := GuiDisplay(S);
      Ready(T) && (LocksConsistent(S) ==> LocksConsistent(T)) && T.users == S.users && T.locks == S.locks &&
      (display.Some? <==>
        ComputationOrder(S.sheet).Some? && ComputationOrder(WithDependencies(S.sheet)).Some? && S.sheet.columns > 0) &&
      (display.Some? ==>
        |display.value| == S.sheet.rows &&
        forall r :: 0 <= r < S.sheet.rows ==>
          (|display.value[r]| == S.sheet.columns &&
           forall c :: 0 <= c < S.sheet.columns ==>
             HasLabel(T.sheet, ColumnRowToCell(c, r)) &&
             display.value[r][c] == DisplayString(Get(T.sheet, ColumnRowToCell(c, r)))))
  {
    AfterEvaluationInGrid(S.sheet);
    var (T, display) := GuiDisplay(S);
    if display.Some? {
      forall r, c | 0 <= r < S.sheet.rows && 0 <= c < S.sheet.columns
        ensures HasLabel(T.sheet, ColumnRowToCell(c, r))
        ensures display.value[r][c] == DisplayString(Get(T.sheet, ColumnRowToCell(c, r)))
      {
        GridLabel(T.sheet, c, r);
      }
    }
  }

  /** The invariants alone, as the controller needs them after a display request. */
  lemma GuiDisplayReady(S: Session)
    requires Ready(S) && LocksConsistent(S)
    ensures Ready(GuiDisplay(S).0) && LocksConsistent(GuiDisplay(S).0)
  {
    AfterEvaluationInGrid(S.sheet);
  }

  /**
    The document handed to a user: an unknown user is first put on A1; the document holds
    the stored sheet and the user's cell, formula, shown result and editing flag.
   */
  lemma DocumentContainerEffect(S: Session, user: string)
    requires Ready(S) && (user in S.users || HasLabel(S.sheet, "A1"))
    ensures var (T, d) := DocumentContainer(S, user);
      Ready(T) && (LocksConsistent(S) ==> LocksConsistent(T)) && T.sheet == S.sheet &&
      user in T.users && d.container == ContainerOf(S.sheet) &&
      d.currentCell == T.users[user].cellLabel &&
      (user in S.users ==> d.currentCell == S.users[user].cellLabel && d.isEditing == S.users[user].isEditing) &&
      (user !in S.users ==> d.currentCell == "A1" && !d.isEditing) &&
      d.formula == Join(T.users[user].formula) &&
      T.users[user].formula == Get(S.sheet, d.currentCell).formula &&
      d.result == DisplayString(Get(S.sheet, d.currentCell))
  {
    ViewAccessKeeps(S, user, "A1");
    var S1 := if user !in S.users then ViewAccess(S, user, "A1") else S;
    FormulaStringForEffect(S1, user);
  }
}
