/**
  Cell labels and the cell record.

  A label is a column name followed by a 1-based row number. Column names are base 26
  with 'A' as the digit zero in every position, so column 0 is "A", 25 is "Z" and 26 is "BA";
  there is no "AA" column, and "AA" decodes to 0 just like "A".
 */
module Cells {
  import opened Numbers
  import opened Wrappers
  import opened GlobalDefinitions

  predicate IsUpper(ch: char) { 'A' <= ch <= 'Z' }

  predicate AllUpper(s: string) { forall i :: 0 <= i < |s| ==> IsUpper(s[i]) }

  function Letter(d: nat): (ch: char)
    requires d < 26
    ensures IsUpper(ch) && ch as int - 65 == d
  {
    (d + 65) as char
  }

  // ---------------------------------------------------------------------------
  // Column names
  // ---------------------------------------------------------------------------

  /** The number a column name stands for: each letter is a base-26 digit, 'A' being 0. */
  function Base26Value(s: string): int
  {
    if s == [] then 0 else Base26Value(s[..|s| - 1]) * 26 + (s[|s| - 1] as int - 65)
  }

  /** The name of column n: its base-26 digits, most significant first, at least one. */
  function ColumnName(n: nat): (name: string)
    ensures 1 <= |name| && AllUpper(name)
  {
    if n < 26 then [Letter(n)] else ColumnName(n / 26) + [Letter(n % 26)]
  }

  /** The last letter of a column's name is its lowest base-26 digit; the rest names the column divided by 26. */
  lemma ColumnNameDigit(n: nat)
    ensures ColumnName(n) == (if n / 26 == 0 then [] else ColumnName(n / 26)) + [Letter(n % 26)]
  {
  }

  lemma {:induction false} Base26ValueOfColumnName(n: nat)
    ensures Base26Value(ColumnName(n)) == n
  {
    if n >= 26 {
      var s := ColumnName(n);
      assert s[..|s| - 1] == ColumnName(n / 26);
      Base26ValueOfColumnName(n / 26);
    }
  }

  lemma {:induction false} Base26ValueNonNegative(s: string)
    requires AllUpper(s)
    ensures Base26Value(s) >= 0
  {
    if s != [] {
      Base26ValueNonNegative(s[..|s| - 1]);
    }
  }

  // ---------------------------------------------------------------------------
  // Labels
  // ---------------------------------------------------------------------------

  /** The pattern A-Z, then 1-9, then an optional digit: the labels a formula may reference. */
  predicate IsValidCellLabel(s: string)
  {
    (|s| == 2 || |s| == 3) && IsUpper(s[0]) && '1' <= s[1] <= '9' && (|s| == 3 ==> IsDigit(s[2]))
  }

  /** Row names are 1-based: row 0 is called "1". */
  function RowNumberToName(row: nat): (name: string)
    ensures 1 <= |name| && AllDigits(name) && name[0] != '0'
  {
    NatToDecimal(row + 1)
  }

  function ColumnRowToCell(column: nat, row: nat): string
  {
    ColumnName(column) + RowNumberToName(row)
  }

  /** How many upper-case letters s starts with. */
  function UpperPrefixLength(s: string): (k: nat)
    ensures k <= |s| && AllUpper(s[..k]) && (k < |s| ==> !IsUpper(s[k]))
  {
    if s == [] || !IsUpper(s[0]) then 0
    else
      var k := 1 + UpperPrefixLength(s[1..]);
      assert s[..k] == [s[0]] + s[1..][..k - 1];
      k
  }

  /** Labels the engine can split into a column part and a row part: ^[A-Z]+[0-9]+$ */
  ghost predicate MatchesLabelPattern(s: string)
  {
    exists k :: 1 <= k < |s| && AllUpper(s[..k]) && AllDigits(s[k..])
  }

  /**
    The (column, row) a label names; the row is the parsed number minus one, so "A0" gives
    row -1. A label that is not letters followed by digits is an error.
   */
  function CellToColumnRow(l: string): Result<(int, int)>
  {
    var k := UpperPrefixLength(l);
    if 1 <= k < |l| && AllDigits(l[k..]) then
      Success((Base26Value(l[..k]), DigitsValue(l[k..]) - 1))
    else
      Failure("Invalid cell name")
  }

  /** The split of a label into letters and digits is unique: it is the upper-case prefix. */
  lemma {:induction false} SplitIsUpperPrefix(s: string, k: nat)
    requires 1 <= k < |s| && AllUpper(s[..k]) && AllDigits(s[k..])
    ensures UpperPrefixLength(s) == k
  {
    assert IsUpper(s[..k][0]);
    if k == 1 {
      assert IsDigit(s[1..][0]) && IsDigit(s[k..][0]);
    } else {
      assert s[1..][..k - 1] == s[..k][1..] && s[1..][k - 1..] == s[k..];
      SplitIsUpperPrefix(s[1..], k - 1);
    }
  }

  /** Splitting a label succeeds exactly when the label is letters followed by digits. */
  lemma CellToColumnRowSucceedsIff(s: string)
    ensures CellToColumnRow(s).Success? <==> MatchesLabelPattern(s)
    ensures CellToColumnRow(s).Success? ==>
      CellToColumnRow(s).value.0 >= 0 && CellToColumnRow(s).value.1 >= -1
  {
    var k := UpperPrefixLength(s);
    if MatchesLabelPattern(s) {
      var j :| 1 <= j < |s| && AllUpper(s[..j]) && AllDigits(s[j..]);
      SplitIsUpperPrefix(s, j);
    }
    if CellToColumnRow(s).Success? {
      Base26ValueNonNegative(s[..k]);
    }
  }

  /** Reading a label back gives the coordinates it was made from. */
  lemma LabelRoundTrip(column: nat, row: nat)
    ensures CellToColumnRow(ColumnRowToCell(column, row)) == Success((column, row))
  {
    var name := ColumnName(column);
    var l := ColumnRowToCell(column, row);
    assert l[..|name|] == name && l[|name|..] == RowNumberToName(row);
    SplitIsUpperPrefix(l, |name|);
    Base26ValueOfColumnName(column);
    DigitsValueOfNatToDecimal(row + 1);
  }

  /** Different coordinates have different labels. */
  lemma LabelsDistinct(c1: nat, r1: nat, c2: nat, r2: nat)
    requires (c1, r1) != (c2, r2)
    ensures ColumnRowToCell(c1, r1) != ColumnRowToCell(c2, r2)
  {
    LabelRoundTrip(c1, r1);
    LabelRoundTrip(c2, r2);
  }

  /** Every valid label has a digit string of at most two digits without leading zero. */
  lemma NatToDecimalSmall(n: nat)
    requires 1 <= n < 100
    ensures |NatToDecimal(n)| == (if n < 10 then 1 else 2) && NatToDecimal(n)[0] != '0'
  {
    if n >= 10 {
      assert NatToDecimal(n) == NatToDecimal(n / 10) + [DigitChar(n % 10)];
    }
  }

  /** A valid label is exactly the label of a cell in the first 26 columns and 99 rows. */
  lemma ValidLabelIff(s: string)
    ensures IsValidCellLabel(s) <==>
      exists column: nat, row: nat :: column < 26 && row < 99 && s == ColumnRowToCell(column, row)
  {
    if IsValidCellLabel(s) {
      var digits := s[1..];
      assert AllDigits(digits);
      var n := DigitsValue(digits);
      NatToDecimalOfDigitsValue(digits);
      DigitsValueAtLeast(digits);
      assert n < 100 by {
        if |digits| == 2 {
          assert digits[..1][..0] == [];
        } else {
          assert digits[..0] == [];
        }
      }
      var column: nat := s[0] as int - 65;
      assert s == [Letter(column)] + NatToDecimal(n);
      assert s == ColumnRowToCell(column, n - 1);
    }
    if exists column: nat, row: nat :: column < 26 && row < 99 && s == ColumnRowToCell(column, row) {
      var column: nat, row: nat :| column < 26 && row < 99 && s == ColumnRowToCell(column, row);
      NatToDecimalSmall(row + 1);
      assert s == [Letter(column)] + NatToDecimal(row + 1);
    }
  }

  lemma ColumnNameExamples()
    ensures ColumnName(0) == "A" && ColumnName(25) == "Z" && ColumnName(26) == "BA"
    ensures Base26Value("AA") == 0 && Base26Value("BA") == 26
  {
    assert "AA"[..1] == "A" && "BA"[..1] == "B" && "A"[..0] == "" && "B"[..0] == "";
  }

  lemma LabelExamples()
    ensures ColumnRowToCell(0, 0) == "A1" && ColumnRowToCell(1, 9) == "B10"
    ensures CellToColumnRow("A1") == Success((0, 0))
  {
    assert NatToDecimal(10) == "10";
    LabelRoundTrip(0, 0);
  }

  lemma MalformedLabelExamples()
    ensures CellToColumnRow("A0") == Success((0, -1))
    ensures CellToColumnRow("A").Failure? && CellToColumnRow("1A").Failure?
  {
    assert UpperPrefixLength("A0") == 1 by { SplitIsUpperPrefix("A0", 1); }
    assert "A0"[1..] == "0" && "A0"[..1] == "A";
    assert UpperPrefixLength("A") == 1 by { assert "A"[1..] == ""; }
    assert UpperPrefixLength("1A") == 0;
  }

  lemma ValidLabelExamples()
    ensures IsValidCellLabel("Z99") && !IsValidCellLabel("A0") && !IsValidCellLabel("AA1")
  {
  }

  // ---------------------------------------------------------------------------
  // The cell record
  // ---------------------------------------------------------------------------

  /** The contents of one cell: its tokens, last value, last error, references and label. */
  datatype CellState = CellState(
    formula: seq<string>, value: real, error: string, dependsOn: seq<string>, cellLabel: string)

  /** A cell that was never given a formula. */
  const EmptyCell := CellState([], 0.0, EmptyFormula, [], "")

  /**
    What a cell shows. `toString` of a number is not modelled: a number is shown as
    `NumberText(v)`, text as `Text(s)`.
   */
  datatype Display = NumberText(number: real) | Text(text: string)

  function DisplayString(cell: CellState): Display
  {
    if cell.error == "" && |cell.formula| > 0 then NumberText(cell.value)
    else if |cell.formula| == 0 then Text("")
    else Text(cell.error)
  }

  /**
    A cell shows its value exactly when it has a formula and no error, shows nothing exactly
    when it has no formula, and otherwise shows its (non-empty) error.
   */
  lemma DisplayStringCases(cell: CellState)
    ensures DisplayString(cell).NumberText? <==> cell.error == "" && cell.formula != []
    ensures DisplayString(cell) == Text("") <==> cell.formula == []
    ensures DisplayString(cell).NumberText? ==> DisplayString(cell).number == cell.value
    ensures DisplayString(cell).Text? && cell.formula != [] ==> DisplayString(cell).text == cell.error
  {
  }

  predicate NoDuplicates(s: seq<string>)
  {
    forall i, j :: 0 <= i < j < |s| ==> s[i] != s[j]
  }

  /** `addDependsOn`: append the label unless it is already there. */
  function WithDependency(deps: seq<string>, d: string): seq<string>
  {
    if d in deps then deps else deps + [d]
  }

  /** `removeDependsOn`: drop the first occurrence of the label, if any. */
  function WithoutDependency(deps: seq<string>, d: string): seq<string>
  {
    if deps == [] then []
    else if deps[0] == d then deps[1..]
    else [deps[0]] + WithoutDependency(deps[1..], d)
  }

  /** Adding a dependency is idempotent and keeps a list free of duplicates. */
  lemma WithDependencyProperties(deps: seq<string>, d: string)
    ensures d in WithDependency(deps, d)
    ensures (set x | x in WithDependency(deps, d)) == (set x | x in deps) + {d}
    ensures WithDependency(WithDependency(deps, d), d) == WithDependency(deps, d)
    ensures NoDuplicates(deps) ==> NoDuplicates(WithDependency(deps, d))
    ensures deps <= WithDependency(deps, d)
  {
  }

  /** Removing a dependency that is not there changes nothing. */
  lemma {:induction false} WithoutAbsentDependency(deps: seq<string>, d: string)
    requires d !in deps
    ensures WithoutDependency(deps, d) == deps
  {
    if deps != [] {
      WithoutAbsentDependency(deps[1..], d);
      assert deps == [deps[0]] + deps[1..];
    }
  }

  /** Removing a dependency takes out its first occurrence and nothing else. */
  lemma WithoutDependencyFirstOccurrence(deps: seq<string>, d: string)
    requires d in deps
    ensures exists i :: (0 <= i < |deps| && deps[i] == d && d !in deps[..i] &&
      WithoutDependency(deps, d) == deps[..i] + deps[i + 1..])
  {
    var i :| 0 <= i < |deps| && deps[i] == d;
    while i > 0 && d in deps[..i]
      invariant 0 <= i < |deps| && deps[i] == d
      decreases i
    {
      var j :| 0 <= j < i && deps[..i][j] == d;
      i := j;
    }
    assert d !in deps[..i];
    WithoutDependencyAt(deps, d, i);
  }

  /** Removing a dependency takes one copy of it out of the multiset of references. */
  lemma {:induction false} WithoutDependencyMultiset(deps: seq<string>, d: string)
    ensures multiset(WithoutDependency(deps, d)) == multiset(deps) - multiset{d}
  {
    if deps != [] {
      var x, tail := deps[0], deps[1..];
      assert deps == [x] + tail;
      assert multiset(deps) == multiset{x} + multiset(tail);
      if x != d {
        WithoutDependencyMultiset(tail, d);
        var rest := WithoutDependency(tail, d);
        assert WithoutDependency(deps, d) == [x] + rest;
        assert multiset([x] + rest) == multiset{x} + multiset(rest);
        MultisetRemoveOther(multiset(tail), x, d);
      }
    }
  }

  /** Taking out one copy of d and adding x commute when x is not d. */
  lemma MultisetRemoveOther(m: multiset<string>, x: string, d: string)
    requires x != d
    ensures multiset{x} + (m - multiset{d}) == (multiset{x} + m) - multiset{d}
  {
    var l := multiset{x} + (m - multiset{d});
    var r := (multiset{x} + m) - multiset{d};
    forall y
      ensures l[y] == r[y]
    {
    }
  }

  /** Removing a label just added to a list that did not hold it gives the list back. */
  lemma {:induction false} WithoutUndoesWith(deps: seq<string>, d: string)
    requires d !in deps
    ensures WithoutDependency(WithDependency(deps, d), d) == deps
  {
    if deps != [] {
      assert (deps + [d])[1..] == deps[1..] + [d];
      WithoutUndoesWith(deps[1..], d);
      assert deps == [deps[0]] + deps[1..];
    }
  }

  /** Removing the first occurrence found at index i is the splice at i. */
  lemma {:induction false} WithoutDependencyAt(deps: seq<string>, d: string, i: nat)
    requires i < |deps| && deps[i] == d && d !in deps[..i]
    ensures WithoutDependency(deps, d) == deps[..i] + deps[i + 1..]
  {
    if i > 0 {
      assert deps[1..][..i - 1] == deps[1..i];
      assert deps[..i] == [deps[0]] + deps[1..i];
      WithoutDependencyAt(deps[1..], d, i - 1);
    }
  }

  /** A cell object; the engine's grid holds these and updates them in place. */
  class Cell {
    var formula: seq<string>
    var value: real
    var error: string
    var dependsOn: seq<string>
    var cellLabel: string

    function State(): CellState
      reads this
    {
      CellState(formula, value, error, dependsOn, cellLabel)
    }

    /** A new cell: no formula, value 0, the "never given a formula" mark and no label. */
    constructor()
      ensures State() == EmptyCell
    {
      formula := [];
      value := 0.0;
      error := EmptyFormula;
      dependsOn := [];
      cellLabel := "";
    }

    /** A copy of another cell's formula, value, error and references; the label is not copied. */
    constructor Copy(cell: Cell)
      ensures State() == cell.State().(cellLabel := "")
    {
      formula := cell.formula;
      value := cell.value;
      error := cell.error;
      dependsOn := cell.dependsOn;
      cellLabel := "";
    }

    method SetFormula(f: seq<string>)
      modifies this`formula
      ensures State() == old(State()).(formula := f)
    {
      formula := f;
    }

    method SetError(e: string)
      modifies this`error
      ensures State() == old(State()).(error := e)
    {
      error := e;
    }

    method SetValue(v: real)
      modifies this`value
      ensures State() == old(State()).(value := v)
    {
      value := v;
    }

    method SetLabel(l: string)
      modifies this`cellLabel
      ensures State() == old(State()).(cellLabel := l)
    {
      cellLabel := l;
    }

    method SetDependsOn(deps: seq<string>)
      modifies this`dependsOn
      ensures State() == old(State()).(dependsOn := deps)
    {
      dependsOn := deps;
    }

    /**
      The value when there is a formula and no error, nothing when there is no formula,
      and the error otherwise.
     */
    function GetDisplayString(): (d: Display)
      reads this
      ensures d == NumberText(value) <==> error == "" && formula != []
      ensures d == Text("") <==> formula == []
      ensures d != NumberText(value) && formula != [] ==> d == Text(error)
      ensures d == DisplayString(State())
    {
      if error == "" && |formula| > 0 then NumberText(value)
      else if |formula| == 0 then Text("")
      else Text(error)
    }

    method AddDependsOn(d: string)
      modifies this`dependsOn
      ensures State() == old(State()).(dependsOn := WithDependency(old(dependsOn), d))
    {
      if d !in dependsOn {
        dependsOn := dependsOn + [d];
      }
    }

    method RemoveDependsOn(d: string)
      modifies this`dependsOn
      ensures State() == old(State()).(dependsOn := WithoutDependency(old(dependsOn), d))
    {
      // indexOf
      var index := 0;
      while index < |dependsOn| && dependsOn[index] != d
        invariant index <= |dependsOn|
        invariant d !in dependsOn[..index]
      {
        index := index + 1;
      }
      if index < |dependsOn| {
        WithoutDependencyAt(dependsOn, d, index);
        dependsOn := dependsOn[..index] + dependsOn[index + 1..];
      } else {
        assert dependsOn[..index] == dependsOn;
        WithoutAbsentDependency(dependsOn, d);
      }
    }

    /** `convertFromBase26ToBase10`, as the loop the engine runs. */
    static method ConvertFromBase26ToBase10(column: string) returns (result: int)
      ensures result == Base26Value(column)
    {
      result := 0;
      for i := 0 to |column|
        invariant result == Base26Value(column[..i])
      {
        assert column[..i + 1][..i] == column[..i];
        result := result * 26;
        result := result + (column[i] as int - 65);
      }
      assert column[..|column|] == column;
    }

    /** `columnNumberToName`, as the do-while loop the engine runs. */
    static method ColumnNumberToName(column: nat) returns (result: string)
      ensures result == ColumnName(column)
    {
      var temp := column;
      result := "";
      // the first pass of the do-while loop
      var remainder := temp % 26;
      temp := temp / 26;
      result := [Letter(remainder)] + result;
      ColumnNameDigit(column);
      while temp > 0
        invariant (if temp == 0 then [] else ColumnName(temp)) + result == ColumnName(column)
      {
        ColumnNameDigit(temp);
        remainder := temp % 26;
        temp := temp / 26;
        result := [Letter(remainder)] + result;
      }
    }
  }
}
