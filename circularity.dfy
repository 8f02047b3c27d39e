/**
  The calculation manager's cycle check, `okToAddNewDependency`: before a reference to a
  cell is put into the formula of the current cell, follow the references of every cell
  the current cell would then refer to, and refuse the new reference when one of those
  walks comes back to the current cell.

  The walk recurses once per reference followed. The source relies on the sheet having no cycle
  already; on a sheet that has one the recursion need not end. Each nested call therefore
  takes one frame of `fuel`, and `None` stands for the call stack overflowing. With one
  frame more than there are grid cells, a ranked sheet never runs out (`OkToAddTerminates`).
 */
module Circularity {
  import opened Wrappers
  import opened Cells
  import opened Memory

  /**
    Every reference of every grid cell names a cell of the grid. Following a reference
    outside the grid is an error in the source (an access past the end of the grid), so
    this is demanded of the callers.
   */
  predicate DependenciesInGrid(s: Sheet)
    requires WellFormed(s)
  {
    forall c, r :: 0 <= c < s.columns && 0 <= r < s.rows ==>
      forall d :: d in s.cells[c][r].dependsOn ==> HasLabel(s, d)
  }

  predicate AllHaveLabels(s: Sheet, labels: seq<string>)
  {
    forall d :: d in labels ==> HasLabel(s, d)
  }

  lemma ReferencesHaveLabels(s: Sheet, l: string)
    requires WellFormed(s) && DependenciesInGrid(s) && HasLabel(s, l)
    ensures AllHaveLabels(s, Get(s, l).dependsOn)
  {
  }

  /**
    `checkForIfCircular(target, deps)`: true when the target is one of the labels, or when
    the walk from the references of one of them finds it.
   */
  function Circular(s: Sheet, target: string, deps: seq<string>, fuel: nat): Option<bool>
    requires WellFormed(s) && DependenciesInGrid(s) && AllHaveLabels(s, deps)
    decreases fuel, 0
  {
    if fuel == 0 then None
    else if target in deps then Some(true)
    else CircularEach(s, target, deps, fuel - 1)
  }

  /** The loop of `checkForIfCircular`: stop at the first label whose walk finds the target. */
  function CircularEach(s: Sheet, target: string, deps: seq<string>, fuel: nat): Option<bool>
    requires WellFormed(s) && DependenciesInGrid(s) && AllHaveLabels(s, deps)
    decreases fuel, 1, |deps|
  {
    if deps == [] then Some(false)
    else
      assert deps[0] in deps;
      ReferencesHaveLabels(s, deps[0]);
      match Circular(s, target, Get(s, deps[0]).dependsOn, fuel)
      case None => None
      case Some(true) => Some(true)
      case Some(false) => CircularEach(s, target, deps[1..], fuel)
  }

  /** One call frame per grid cell, and one for the first call. */
  function Frames(s: Sheet): nat
  {
    s.columns * s.rows + 1
  }

  /**
    `okToAddNewDependency(current, added)`: a reference the cell already has is accepted at
    once; otherwise the walk starts from the references of each cell the current one would
    refer to, and the new reference is refused (`Some(false)`) when a walk finds the current cell.
   */
  function OkToAdd(s: Sheet, current: string, added: string, fuel: nat): Option<bool>
    requires WellFormed(s) && DependenciesInGrid(s) && HasLabel(s, current) && HasLabel(s, added)
  {
    var deps := Get(s, current).dependsOn;
    if added in deps then Some(true)
    else CheckEach(s, current, deps + [added], fuel)
  }

  /** The loop of `okToAddNewDependency` over the references with the new one appended. */
  function CheckEach(s: Sheet, current: string, cells: seq<string>, fuel: nat): Option<bool>
    requires WellFormed(s) && DependenciesInGrid(s) && AllHaveLabels(s, cells)
    decreases |cells|
  {
    if cells == [] then Some(true)
    else
      assert cells[0] in cells;
      ReferencesHaveLabels(s, cells[0]);
      match Circular(s, current, Get(s, cells[0]).dependsOn, fuel)
      case None => None
      case Some(true) => Some(false)
      case Some(false) => CheckEach(s, current, cells[1..], fuel)
  }

  // ---------------------------------------------------------------------------
  // What the answer means
  // ---------------------------------------------------------------------------

  /**
    A walk along references, starting at one of the labels `from` and ending at `target`:
    each label of the walk refers to the next.
   */
  ghost predicate IsPathTo(s: Sheet, from: seq<string>, target: string, p: seq<string>)
    requires WellFormed(s)
  {
    |p| >= 1 && p[0] in from && p[|p| - 1] == target &&
    forall i :: 0 <= i < |p| - 1 ==> HasLabel(s, p[i]) && p[i + 1] in Get(s, p[i]).dependsOn
  }

  /** The target is reached from cell x along one reference or more. */
  ghost predicate Reaches(s: Sheet, x: string, target: string)
    requires WellFormed(s)
  {
    HasLabel(s, x) && exists p :: IsPathTo(s, Get(s, x).dependsOn, target, p)
  }

  /** A walk from the references of d, with d in front, is a walk from any labels holding d. */
  lemma ExtendPath(s: Sheet, from: seq<string>, d: string, target: string, p: seq<string>)
    requires WellFormed(s) && d in from && HasLabel(s, d) && IsPathTo(s, Get(s, d).dependsOn, target, p)
    ensures IsPathTo(s, from, target, [d] + p)
  {
    var q := [d] + p;
    forall i | 0 <= i < |q| - 1
      ensures HasLabel(s, q[i]) && q[i + 1] in Get(s, q[i]).dependsOn
    {
      if i > 0 {
        assert q[i] == p[i - 1] && q[i + 1] == p[i];
      }
    }
  }

  /** When the walk answers true, there is a walk from the labels to the target. */
  lemma {:induction false} CircularTrue(s: Sheet, target: string, deps: seq<string>, fuel: nat)
    requires WellFormed(s) && DependenciesInGrid(s) && AllHaveLabels(s, deps)
    requires Circular(s, target, deps, fuel) == Some(true)
    ensures exists p :: IsPathTo(s, deps, target, p)
    decreases fuel, 0
  {
    if target in deps {
      assert IsPathTo(s, deps, target, [target]);
    } else {
      CircularEachTrue(s, target, deps, fuel - 1);
    }
  }

  lemma {:induction false} CircularEachTrue(s: Sheet, target: string, deps: seq<string>, fuel: nat)
    requires WellFormed(s) && DependenciesInGrid(s) && AllHaveLabels(s, deps)
    requires CircularEach(s, target, deps, fuel) == Some(true)
    ensures exists p :: IsPathTo(s, deps, target, p)
    decreases fuel, 1, |deps|
  {
    var d := deps[0];
    assert d in deps;
    ReferencesHaveLabels(s, d);
    var first := Circular(s, target, Get(s, d).dependsOn, fuel);
    if first == Some(true) {
      CircularTrue(s, target, Get(s, d).dependsOn, fuel);
      var p :| IsPathTo(s, Get(s, d).dependsOn, target, p);
      ExtendPath(s, deps, d, target, p);
    } else {
      CircularEachTrue(s, target, deps[1..], fuel);
      var p :| IsPathTo(s, deps[1..], target, p);
      assert p[0] in deps;
      assert IsPathTo(s, deps, target, p);
    }
  }

  /** When the loop answers false, the walk from every label answered false. */
  lemma {:induction false} CircularEachFalse(s: Sheet, target: string, deps: seq<string>, fuel: nat, d: string)
    requires WellFormed(s) && DependenciesInGrid(s) && AllHaveLabels(s, deps)
    requires CircularEach(s, target, deps, fuel) == Some(false) && d in deps
    ensures HasLabel(s, d) && AllHaveLabels(s, Get(s, d).dependsOn)
    ensures Circular(s, target, Get(s, d).dependsOn, fuel) == Some(false)
    decreases |deps|
  {
    ReferencesHaveLabels(s, d);
    assert deps[0] in deps;
    ReferencesHaveLabels(s, deps[0]);
    if deps[0] != d {
      CircularEachFalse(s, target, deps[1..], fuel, d);
    }
  }

  /** When the walk answers false, no walk from the labels reaches the target. */
  lemma {:induction false} CircularFalse(s: Sheet, target: string, deps: seq<string>, fuel: nat, p: seq<string>)
    requires WellFormed(s) && DependenciesInGrid(s) && AllHaveLabels(s, deps)
    requires Circular(s, target, deps, fuel) == Some(false)
    ensures !IsPathTo(s, deps, target, p)
    decreases |p|
  {
    if IsPathTo(s, deps, target, p) {
      assert |p| >= 2;
      CircularEachFalse(s, target, deps, fuel - 1, p[0]);
      var q := p[1..];
      forall i | 0 <= i < |q| - 1
        ensures HasLabel(s, q[i]) && q[i + 1] in Get(s, q[i]).dependsOn
      {
        assert q[i] == p[i + 1] && q[i + 1] == p[i + 2];
      }
      assert IsPathTo(s, Get(s, p[0]).dependsOn, target, q);
      CircularFalse(s, target, Get(s, p[0]).dependsOn, fuel - 1, q);
    }
  }

  /** The walk answers true exactly when the target is reachable from the labels. */
  lemma CircularMeaning(s: Sheet, target: string, deps: seq<string>, fuel: nat)
    requires WellFormed(s) && DependenciesInGrid(s) && AllHaveLabels(s, deps)
    requires Circular(s, target, deps, fuel).Some?
    ensures Circular(s, target, deps, fuel).value <==> exists p :: IsPathTo(s, deps, target, p)
  {
    if Circular(s, target, deps, fuel).value {
      CircularTrue(s, target, deps, fuel);
    } else {
      forall p
        ensures !IsPathTo(s, deps, target, p)
      {
        CircularFalse(s, target, deps, fuel, p);
      }
    }
  }

  /** The loop refuses exactly when the current cell is reached from one of the cells. */
  lemma {:induction false} CheckEachMeaning(s: Sheet, current: string, cells: seq<string>, fuel: nat)
    requires WellFormed(s) && DependenciesInGrid(s) && AllHaveLabels(s, cells)
    requires CheckEach(s, current, cells, fuel).Some?
    ensures CheckEach(s, current, cells, fuel).value <==> forall x :: x in cells ==> !Reaches(s, x, current)
    decreases |cells|
  {
    if cells != [] {
      var x := cells[0];
      assert x in cells;
      ReferencesHaveLabels(s, x);
      CircularMeaning(s, current, Get(s, x).dependsOn, fuel);
      if Circular(s, current, Get(s, x).dependsOn, fuel) == Some(false) {
        CheckEachMeaning(s, current, cells[1..], fuel);
        assert forall y :: y in cells ==> y == x || y in cells[1..];
      }
    }
  }

  /**
    `okToAddNewDependency` accepts a reference the cell already has, and otherwise refuses
    exactly when the current cell is reached, along one reference or more, from one of the
    cells it would then refer to.
   */
  lemma OkToAddMeaning(s: Sheet, current: string, added: string, fuel: nat)
    requires WellFormed(s) && DependenciesInGrid(s) && HasLabel(s, current) && HasLabel(s, added)
    requires OkToAdd(s, current, added, fuel).Some?
    ensures added in Get(s, current).dependsOn ==> OkToAdd(s, current, added, fuel) == Some(true)
    ensures added !in Get(s, current).dependsOn ==>
      (OkToAdd(s, current, added, fuel) == Some(false) <==>
       exists x :: x in Get(s, current).dependsOn + [added] && Reaches(s, x, current))
  {
    var deps := Get(s, current).dependsOn;
    if added !in deps {
      ReferencesHaveLabels(s, current);
      CheckEachMeaning(s, current, deps + [added], fuel);
    }
  }

  // ---------------------------------------------------------------------------
  // On a ranked sheet the walk always ends
  // ---------------------------------------------------------------------------

  /**
    Each grid cell has a rank below the number of grid cells, and every reference leads to
    a cell of the grid with a smaller rank: the references have no cycle.
   */
  ghost predicate RankedCells(s: Sheet, rank: map<(int, int), nat>)
    requires WellFormed(s)
  {
    forall c, r :: InGrid(s, c, r) ==>
      (c, r) in rank && rank[(c, r)] < s.columns * s.rows &&
      forall d :: d in s.cells[c][r].dependsOn ==>
        HasLabel(s, d) && (Column(s, d), Row(s, d)) in rank && rank[(Column(s, d), Row(s, d))] < rank[(c, r)]
  }

  function RankOf(s: Sheet, rank: map<(int, int), nat>, l: string): nat
    requires WellFormed(s) && HasLabel(s, l) && RankedCells(s, rank)
  {
    assert InGrid(s, Column(s, l), Row(s, l));
    rank[(Column(s, l), Row(s, l))]
  }

  lemma RankedReferences(s: Sheet, rank: map<(int, int), nat>, l: string)
    requires WellFormed(s) && HasLabel(s, l) && RankedCells(s, rank)
    ensures DependenciesInGrid(s) && RankOf(s, rank, l) < s.columns * s.rows
    ensures forall d :: d in Get(s, l).dependsOn ==> HasLabel(s, d) && RankOf(s, rank, d) < RankOf(s, rank, l)
  {
    assert InGrid(s, Column(s, l), Row(s, l));
  }

  lemma {:induction false} CircularTerminates(s: Sheet, rank: map<(int, int), nat>, target: string, deps: seq<string>, fuel: nat)
    requires WellFormed(s) && RankedCells(s, rank) && DependenciesInGrid(s) && AllHaveLabels(s, deps)
    requires fuel > 0 && forall d :: d in deps ==> RankOf(s, rank, d) + 1 < fuel
    ensures Circular(s, target, deps, fuel).Some?
    decreases fuel, 0
  {
    if target !in deps {
      CircularEachTerminates(s, rank, target, deps, fuel - 1);
    }
  }

  lemma {:induction false} CircularEachTerminates(s: Sheet, rank: map<(int, int), nat>, target: string, deps: seq<string>, fuel: nat)
    requires WellFormed(s) && RankedCells(s, rank) && DependenciesInGrid(s) && AllHaveLabels(s, deps)
    requires forall d :: d in deps ==> RankOf(s, rank, d) < fuel
    ensures CircularEach(s, target, deps, fuel).Some?
    decreases fuel, 1, |deps|
  {
    if deps != [] {
      var d := deps[0];
      assert d in deps;
      RankedReferences(s, rank, d);
      CircularTerminates(s, rank, target, Get(s, d).dependsOn, fuel);
      if Circular(s, target, Get(s, d).dependsOn, fuel) == Some(false) {
        CircularEachTerminates(s, rank, target, deps[1..], fuel);
      }
    }
  }

  lemma {:induction false} CheckEachTerminates(s: Sheet, rank: map<(int, int), nat>, current: string, cells: seq<string>)
    requires WellFormed(s) && RankedCells(s, rank) && DependenciesInGrid(s) && AllHaveLabels(s, cells)
    ensures CheckEach(s, current, cells, Frames(s)).Some?
    decreases |cells|
  {
    if cells != [] {
      var x := cells[0];
      assert x in cells;
      RankedReferences(s, rank, x);
      CircularTerminates(s, rank, current, Get(s, x).dependsOn, Frames(s));
      if Circular(s, current, Get(s, x).dependsOn, Frames(s)) == Some(false) {
        CheckEachTerminates(s, rank, current, cells[1..]);
      }
    }
  }

  /** On a ranked sheet `okToAddNewDependency` always answers. */
  lemma OkToAddTerminates(s: Sheet, rank: map<(int, int), nat>, current: string, added: string)
    requires WellFormed(s) && RankedCells(s, rank) && HasLabel(s, current) && HasLabel(s, added)
    ensures DependenciesInGrid(s) && OkToAdd(s, current, added, Frames(s)).Some?
  {
    RankedReferences(s, rank, current);
    if added !in Get(s, current).dependsOn {
      CheckEachTerminates(s, rank, current, Get(s, current).dependsOn + [added]);
    }
  }

  /** A walk along references always goes down in rank. */
  lemma {:induction false} PathDescends(s: Sheet, rank: map<(int, int), nat>, x: string, target: string, p: seq<string>)
    requires WellFormed(s) && RankedCells(s, rank) && HasLabel(s, x) && IsPathTo(s, Get(s, x).dependsOn, target, p)
    ensures HasLabel(s, target) && RankOf(s, rank, target) < RankOf(s, rank, x)
    decreases |p|
  {
    RankedReferences(s, rank, x);
    if |p| > 1 {
      var q := p[1..];
      forall i | 0 <= i < |q| - 1
        ensures HasLabel(s, q[i]) && q[i + 1] in Get(s, q[i]).dependsOn
      {
        assert q[i] == p[i + 1] && q[i + 1] == p[i + 2];
      }
      PathDescends(s, rank, p[0], target, q);
    }
  }

  /**
    On a ranked sheet the check accepts a reference of a cell to itself: the walk
    starts from the references of the cell, never from the cell. The caller has to refuse it.
   */
  lemma SelfReferenceAccepted(s: Sheet, rank: map<(int, int), nat>, current: string)
    requires WellFormed(s) && RankedCells(s, rank) && HasLabel(s, current)
    ensures DependenciesInGrid(s) && OkToAdd(s, current, current, Frames(s)) == Some(true)
  {
    OkToAddTerminates(s, rank, current, current);
    OkToAddMeaning(s, current, current, Frames(s));
    var test := Get(s, current).dependsOn + [current];
    forall x | x in test
      ensures !Reaches(s, x, current)
    {
      NoWayBack(s, rank, current, x);
    }
    assert !exists x :: x in test && Reaches(s, x, current);
    var answer := OkToAdd(s, current, current, Frames(s));
    assert answer.Some? && answer != Some(false);
    assert answer.value;
    assert answer == Some(true);
  }

  /** Neither a cell nor one of its references reaches the cell again. */
  lemma NoWayBack(s: Sheet, rank: map<(int, int), nat>, current: string, x: string)
    requires WellFormed(s) && RankedCells(s, rank) && HasLabel(s, current)
    requires x == current || x in Get(s, current).dependsOn
    ensures !Reaches(s, x, current)
  {
    RankedReferences(s, rank, current);
    if Reaches(s, x, current) {
      var p :| IsPathTo(s, Get(s, x).dependsOn, current, p);
      PathDescends(s, rank, x, current, p);
    }
  }

  /**
    With A1 referring to A2 and A2 to A3, a reference from A3 to A1 is refused, whatever
    else the sheet holds.
   */
  lemma ChainRefusesCycle(s: Sheet)
    requires WellFormed(s) && DependenciesInGrid(s) && s.columns >= 1 && s.rows >= 3
    requires HasLabel(s, "A1") && HasLabel(s, "A2") && HasLabel(s, "A3")
    requires Get(s, "A1").dependsOn == ["A2"] && Get(s, "A2").dependsOn == ["A3"] && Get(s, "A3").dependsOn == []
    ensures OkToAdd(s, "A3", "A1", Frames(s)) == Some(false)
  {
    assert Frames(s) >= 4;
    var f := Frames(s);
    assert Circular(s, "A3", ["A3"], f - 1) == Some(true);
    assert CircularEach(s, "A3", ["A2"], f - 1) == Some(true);
    assert Circular(s, "A3", ["A2"], f) == Some(true);
    assert [] + ["A1"] == ["A1"];
    assert CheckEach(s, "A3", ["A1"], f) == Some(false);
  }

  // ---------------------------------------------------------------------------
  // The check, as the source runs it
  // ---------------------------------------------------------------------------

  /** `okToAddNewDependency`: it reads the sheet memory and changes nothing. */
  method OkToAddNewDependency(m: SheetMemory, currentCellLabel: string, newDependsOnCell: string)
    returns (ok: Option<bool>)
    requires m.Valid() && DependenciesInGrid(m.View())
    requires HasLabel(m.View(), currentCellLabel) && HasLabel(m.View(), newDependsOnCell)
    ensures m.Repr() == old(m.Repr()) && m.View() == old(m.View())
    ensures ok == OkToAdd(m.View(), currentCellLabel, newDependsOnCell, Frames(m.View()))
  {
    ghost var s := m.View();
    var currentCell := m.GetCellByLabel(currentCellLabel);
    var dependsOn := currentCell.dependsOn;
    var testDependsOn := dependsOn + [newDependsOnCell];
    if newDependsOnCell in dependsOn {
      return Some(true);
    }
    ReferencesHaveLabels(s, currentCellLabel);
    assert AllHaveLabels(s, testDependsOn);
    assert m.Repr() == old(m.Repr()) && m.View() == s;
    ok := CheckDependencies(m, s, currentCellLabel, testDependsOn);
  }

  /** The loop of `okToAddNewDependency` over the references with the new one appended. */
  method CheckDependencies(m: SheetMemory, ghost s: Sheet, currentCellLabel: string, testDependsOn: seq<string>)
    returns (ok: Option<bool>)
    requires m.Valid() && m.View() == s && DependenciesInGrid(s) && AllHaveLabels(s, testDependsOn)
    ensures ok == CheckEach(s, currentCellLabel, testDependsOn, Frames(s))
  {
    var fuel: nat := m.columns * m.rows + 1;
    for i := 0 to |testDependsOn|
      invariant AllHaveLabels(s, testDependsOn[i..])
      invariant CheckEach(s, currentCellLabel, testDependsOn, fuel) == CheckEach(s, currentCellLabel, testDependsOn[i..], fuel)
    {
      var currentDependency := testDependsOn[i];
      CheckEachStep(s, currentCellLabel, testDependsOn, i, fuel);
      var dependency := m.GetCellByLabel(currentDependency);
      assert m.Repr() == old(m.Repr()) && m.View() == s;
      var circular := CheckForIfCircular(m, currentCellLabel, dependency.dependsOn, fuel);
      if circular.None? {
        return None;
      }
      if circular.value {
        return Some(false);
      }
    }
    return Some(true);
  }

  /** One turn of the loop over the references, from position i. */
  lemma CheckEachStep(s: Sheet, current: string, cells: seq<string>, i: nat, fuel: nat)
    requires WellFormed(s) && DependenciesInGrid(s) && i < |cells| && AllHaveLabels(s, cells[i..])
    ensures HasLabel(s, cells[i]) && AllHaveLabels(s, Get(s, cells[i]).dependsOn) && AllHaveLabels(s, cells[i + 1..])
    ensures CheckEach(s, current, cells[i..], fuel) ==
      match Circular(s, current, Get(s, cells[i]).dependsOn, fuel)
      case None => None
      case Some(true) => Some(false)
      case Some(false) => CheckEach(s, current, cells[i + 1..], fuel)
  {
    assert cells[i..][0] == cells[i] && cells[i..][1..] == cells[i + 1..];
    assert cells[i] in cells[i..];
    ReferencesHaveLabels(s, cells[i]);
  }

  /** `checkForIfCircular`, with one frame of `fuel` per call. */
  method CheckForIfCircular(m: SheetMemory, cellLabel: string, dependsOn: seq<string>, fuel: nat)
    returns (circular: Option<bool>)
    requires m.Valid() && DependenciesInGrid(m.View()) && AllHaveLabels(m.View(), dependsOn)
    ensures m.Repr() == old(m.Repr()) && m.View() == old(m.View())
    ensures circular == Circular(m.View(), cellLabel, dependsOn, fuel)
    decreases fuel
  {
    ghost var s := m.View();
    if fuel == 0 {
      return None;
    }
    if cellLabel in dependsOn {
      return Some(true);
    }
    for i := 0 to |dependsOn|
      invariant m.Repr() == old(m.Repr()) && m.View() == s
      invariant AllHaveLabels(s, dependsOn[i..])
      invariant CircularEach(s, cellLabel, dependsOn, fuel - 1) == CircularEach(s, cellLabel, dependsOn[i..], fuel - 1)
    {
      var currentDependency := dependsOn[i];
      assert dependsOn[i..][0] == currentDependency && dependsOn[i..][1..] == dependsOn[i + 1..];
      assert currentDependency in dependsOn[i..];
      var currentCell := m.GetCellByLabel(currentDependency);
      assert m.Repr() == old(m.Repr()) && m.View() == s;
      ReferencesHaveLabels(s, currentDependency);
      var found := CheckForIfCircular(m, cellLabel, currentCell.dependsOn, fuel - 1);
      assert m.Repr() == old(m.Repr()) && m.View() == s;
      if found.None? {
        return None;
      }
      if found.value {
        return Some(true);
      }
    }
    return Some(false);
  }
}
