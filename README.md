# A verified model of a multi-user spreadsheet engine

This project models the engine of a small collaborative spreadsheet in Dafny and proves
properties of the model. The engine keeps a grid of cells. Each cell has a formula, the value
and error its last evaluation gave it, and the cells its formula refers to. Several users edit
one sheet through a controller that locks the cell each user is editing and recomputes the
whole sheet after every change to a formula.

The modules follow the engine's files:

| file | module | models |
|---|---|---|
| `wrappers.dfy` | `Wrappers` | `Option` and `Result` |
| `global_definitions.dfy` | `GlobalDefinitions` | the error strings `#ERR`, `#DIV/0!`, `#REF!` and `#EMPTY!` |
| `numbers.dfy` | `Numbers` | decimal digit strings, and `Number(token)`/`isNaN` on keypad tokens |
| `cell.dfy` | `Cells` | cell labels (base-26 column names, 1-based rows) and the `Cell` class |
| `formula_builder.dfy` | `Formulas` | the `FormulaBuilder` token editor, the formula string and the cell references of a formula |
| `formula_evaluator.dfy` | `Evaluation` | the shunting-yard `FormulaEvaluator`, and a recursive reference semantics for expressions |
| `sheet_memory.dfy` | `Memory` | the column-major grid `SheetMemory`, its working cell, display strings and stored form |
| `calculation_manager.dfy` | `Calculation` | `updateDependencies` and `updateComputationOrder` with its `visit` |
| `circularity.dfy` | `Circularity` | `okToAddNewDependency` with its `checkForIfCircular` |
| `sheet_evaluation.dfy` | `SheetEvaluation` | `evaluateSheet` |
| `contributing_user.dfy` | `Users` | the `ContributingUser` record |
| `session.dfy` | `Sessions` | the controller's state as a value, with one function per request |
| `spreadsheet_controller.dfy` | `Controller` | the `SpreadSheetController` class |

Every class that the engine updates in place is a Dafny class: `Cell`, `FormulaBuilder`,
`FormulaEvaluator`, `SheetMemory`, `ContributingUser` and `SpreadSheetController`. Each has a
value-level abstraction: `CellState`, a formula as `seq<string>`, `Sheet` and `Session`. Each
method is proved to take the old abstraction to a function of it, such as `View() ==
PutLabel(old(View()), l, x)` or `State() == EditAccess(old(State()), user, l)`. The engine's
promises are lemmas about those functions. The lemmas cover:

- label round trips;
- references listed once, in first-occurrence order;
- evaluation against an independent expression semantics: fully parenthesized
  expressions, and chains of any length without brackets, which evaluate as their
  precedence-correct tree;
- store and load of a sheet;
- a computation order that is a permutation and topological;
- exact answers of the cycle check;
- every cell agreeing with its formula after a recomputation;
- consistency of the lock table.

Some properties hold only on a sheet whose references form no cycle, as the engine expects.
There the lemmas take a ranking of the cells that drops along every reference as a witness;
such a ranked sheet has no cycle, and the lemmas speak of ranked sheets.

Where the code and the engine's design notes disagree, the model follows the code:

- Column 26 is "BA", not "AA": `A` is the digit 0 in every position (`Cells.ColumnNameExamples`).
- An empty formula evaluates to result 0 with error "", not `#EMPTY!` (`Evaluation.EvalTooManyValues`).
- A formula with a dangling operator, such as `1 +`, gives 0 with error "", through
  `values.pop() || 0` (`Evaluation.EvalDanglingOperator`).
- `( )` gives result 0 with error "" (`Evaluation.EvalEmptyParens`).
- `8 (` applies "(" as an operator at the end and gives `#ERR` (`Evaluation.EvalTrailingParen`).
- Only one user at a time can hold the lock on a cell, but a cell can still have more than
  one writer. Two behaviours combine here:
  - a view request drops the lock on the cell, whoever holds it;
  - a move to another cell keeps the user's editing flag.

  So a user refused a locked cell can still write to it. `Sessions.StaleEditing` proves this.

## Model

| member | source | states |
|---|---|---|
| Numbers.NatToDecimal | src/Engine/Cell.ts:258-260 | `toString` of a natural number is a non-empty digit string, with a leading '0' only for 0 |
| Numbers.DigitsValueOfNatToDecimal | src/Engine/Cell.ts:280-281 | `parseInt` reads back what `toString` wrote, for every natural number |
| Numbers.NatToDecimalOfDigitsValue | src/Engine/Cell.ts:280-281 | `toString` writes back any digit string `parseInt` read, when it has no leading zero |
| Numbers.DigitsValueAtLeast | src/Engine/Cell.ts:280-281 | a digit string without leading zero reads as at least 1 |
| Numbers.IntegerValueExamples | src/Engine/FormulaEvaluator.ts:59-60 | `Number("12")` is 12 and `Number("0")` is 0 |
| Numbers.FractionValueExamples | src/Engine/FormulaEvaluator.ts:59-60 | `Number("1.5")` is 1.5 |
| Numbers.DotValueExamples | src/Engine/FormulaEvaluator.ts:59-60 | a '.' at either end of a number counts: "1." is 1 and ".5" is 0.5 |
| Numbers.NoNumberExamples | src/Engine/FormulaEvaluator.ts:163-165 | ".", "", "1.2.3" and "+" are not numbers for `isNumber` |
| Cells.ColumnName | src/Engine/Cell.ts:233-248 | a column name is one or more upper-case letters |
| Cells.ColumnNameDigit | src/Engine/Cell.ts:242-246 | one pass of the do-while loop: the last letter is the column mod 26 and the rest names the column div 26 |
| Cells.Base26ValueOfColumnName | src/Engine/Cell.ts:218-248 | `convertFromBase26ToBase10` inverts `columnNumberToName` for every column |
| Cells.Base26ValueNonNegative | src/Engine/Cell.ts:218-225 | an all-letter name never decodes to a negative column |
| Cells.RowNumberToName | src/Engine/Cell.ts:258-260 | a row name is the 1-based number: digits, no leading zero |
| Cells.UpperPrefixLength | src/Engine/Cell.ts:274-275 | the count of leading upper-case letters: they are all letters and the next character is not |
| Cells.SplitIsUpperPrefix | src/Engine/Cell.ts:274-275 | letters-then-digits splits in only one place, at the end of the upper-case prefix |
| Cells.CellToColumnRowSucceedsIff | src/Engine/Cell.ts:268-284 | `cellToColumnRow` succeeds exactly on strings matching ^[A-Z]+[0-9]+$, with column >= 0 and row >= -1; otherwise it is "Invalid cell name" |
| Cells.LabelRoundTrip | src/Engine/Cell.ts:268-310 | `cellToColumnRow(columnRowToCell(c, r))` gives back (c, r) for every c and r |
| Cells.LabelsDistinct | src/Engine/Cell.ts:293-310 | different coordinates get different labels |
| Cells.NatToDecimalSmall | src/Engine/Cell.ts:258-260 | the names of rows 0-98 have one or two digits and no leading zero |
| Cells.ValidLabelIff | src/Engine/Cell.ts:213-216 | `isValidCellLabel` accepts exactly the labels of columns A-Z and rows 1-99, both directions |
| Cells.ColumnNameExamples | src/Engine/Cell.ts:218-248 | column 0 is "A", 25 is "Z" and 26 is "BA"; "AA" decodes to 0 and "BA" to 26 |
| Cells.LabelExamples | src/Engine/Cell.ts:268-310 | (0, 0) is "A1", (1, 9) is "B10", and "A1" is (0, 0) |
| Cells.MalformedLabelExamples | src/Engine/Cell.ts:274-283 | "A0" gives row -1; "A" and "1A" are "Invalid cell name" |
| Cells.ValidLabelExamples | src/Engine/Cell.ts:213-216 | "Z99" is a valid reference; "A0" and "AA1" are not |
| Cells.DisplayStringCases | src/Engine/Cell.ts:124-138 | a cell shows its value exactly when it has a formula and no error, shows "" exactly when it has no formula, and otherwise shows its error |
| Cells.WithDependencyProperties | src/Engine/Cell.ts:164-169 | `addDependsOn` adds exactly d to the set of references, is idempotent, keeps the list duplicate-free and extends it |
| Cells.WithoutAbsentDependency | src/Engine/Cell.ts:175-180 | `removeDependsOn` of an absent label changes nothing |
| Cells.WithoutDependencyFirstOccurrence | src/Engine/Cell.ts:175-180 | `removeDependsOn` splices out exactly the first occurrence |
| Cells.WithoutDependencyMultiset | src/Engine/Cell.ts:175-180 | `removeDependsOn` takes one copy of the label out of the multiset of references |
| Cells.WithoutUndoesWith | src/Engine/Cell.ts:164-180 | removing a label just added to a list without it gives the list back |
| Cells.WithoutDependencyAt | src/Engine/Cell.ts:176-179 | the removal at index i found by `indexOf` is the splice at i |
| Cells.Cell.constructor | src/Engine/Cell.ts:44-62 | a new cell has no formula, value 0, the "#EMPTY!" mark and no references |
| Cells.Cell.Copy | src/Engine/Cell.ts:44-53 | the copy constructor copies formula, value, error and references, and not the label |
| Cells.Cell.SetFormula | src/Engine/Cell.ts:79-81 | sets the formula and nothing else |
| Cells.Cell.SetError | src/Engine/Cell.ts:87-89 | sets the error and nothing else |
| Cells.Cell.SetValue | src/Engine/Cell.ts:115-117 | sets the value and nothing else |
| Cells.Cell.SetLabel | src/Engine/Cell.ts:155-157 | sets the label and nothing else |
| Cells.Cell.SetDependsOn | src/Engine/Cell.ts:197-199 | sets the references and nothing else |
| Cells.Cell.GetDisplayString | src/Engine/Cell.ts:124-138 | the cell shows its value exactly when it has a formula and no error, shows the empty text exactly when it has no formula, and shows its error in every other case |
| Cells.Cell.AddDependsOn | src/Engine/Cell.ts:164-169 | the references become `WithDependency` of the old ones; nothing else changes |
| Cells.Cell.RemoveDependsOn | src/Engine/Cell.ts:175-180 | the `indexOf` loop and the splice leave `WithoutDependency` of the old references; nothing else changes |
| Cells.Cell.ConvertFromBase26ToBase10 | src/Engine/Cell.ts:218-225 | the loop computes `Base26Value` of the name |
| Cells.Cell.ColumnNumberToName | src/Engine/Cell.ts:233-248 | the do-while loop computes `ColumnName` of the column |
| Formulas.KeysAppend | src/Engine/FormulaBuilder.ts:100-102 | appending a token appends its text to the typed keys |
| Formulas.AppendTokenKeepsKeys | src/Engine/FormulaBuilder.ts:56-109 | `addToken` ignores only a '.' that cannot extend a number; otherwise the typed text grows by exactly the token; the length grows by one unless the token was merged or ignored; the tokens before the last are untouched |
| Formulas.AppendDigitExamples | src/Engine/FormulaBuilder.ts:68-72 | "1" then "2" gives ["12"], "1." then "2" gives ["1.2"], but "A1" then "2" gives ["A1", "2"] |
| Formulas.AppendDotExamples | src/Engine/FormulaBuilder.ts:59-92 | "." alone is kept, "1" then "." gives ["1."], and a '.' after "1.2" or after "+" is ignored |
| Formulas.AppendOperatorExample | src/Engine/FormulaBuilder.ts:100-102 | an operator after a number starts a new token |
| Formulas.NumberPlusDigit | src/Engine/FormulaBuilder.ts:68-72 | a number followed by a digit is still a number, with a '.' exactly when it had one |
| Formulas.NumberPlusDot | src/Engine/FormulaBuilder.ts:87-92 | a number without a '.' followed by '.' is still a number |
| Formulas.RemoveUndoesAppend | src/Engine/FormulaBuilder.ts:56-134 | `removeToken` undoes an `addToken` of one key that was not ignored |
| Formulas.RemoveLastKeys | src/Engine/FormulaBuilder.ts:116-134 | `removeToken` deletes the last character of a number longer than one character and the whole last token otherwise |
| Formulas.KeysShortenLast | src/Engine/FormulaBuilder.ts:126-129 | shortening the last token by one character shortens the typed text by that character |
| Formulas.RemoveLastExamples | src/Engine/FormulaBuilder.ts:116-134 | [] stays [], ["12"] becomes ["1"], ["1", "+"] becomes ["1"], and ["A12"] becomes [] |
| Formulas.SpacedIsJoinPlusSpace | src/Engine/FormulaBuilder.ts:146-159 | the loop's text is the tokens joined by spaces plus one trailing space |
| Formulas.JoinSnoc | src/Engine/FormulaBuilder.ts:150-152 | joining one more token adds a space and the token |
| Formulas.SplitWordSkipsWord | src/Engine/FormulaBuilder.ts:146-159 | splitting skips the characters of a space-free word |
| Formulas.SplitJoin | src/Engine/FormulaBuilder.ts:146-159 | the formula string of non-empty, space-free tokens splits back into the tokens |
| Formulas.JoinLength | src/Engine/FormulaBuilder.ts:146-159 | the formula string is as long as the tokens plus one space between neighbours |
| Formulas.CellReferencesMembers | src/Engine/FormulaBuilder.ts:166-179 | the references are exactly the valid labels among the tokens, without repetition |
| Formulas.CellReferencesOrder | src/Engine/FormulaBuilder.ts:166-179 | the references appear in the order of their first occurrence in the formula |
| Formulas.CellReferencesExample | src/Engine/FormulaBuilder.ts:166-179 | ["A1", "+", "A2", "+", "A1"] references ["A1", "A2"] |
| Formulas.FormulaBuilder.constructor | src/Engine/FormulaBuilder.ts:22-24 | a new builder holds the empty formula |
| Formulas.FormulaBuilder.SetFormula | src/Engine/FormulaBuilder.ts:39-42 | the builder holds exactly the given formula |
| Formulas.FormulaBuilder.AddToken | src/Engine/FormulaBuilder.ts:56-109 | the flag-driven method leaves `AppendToken` of the old formula |
| Formulas.FormulaBuilder.RemoveToken | src/Engine/FormulaBuilder.ts:116-134 | the method leaves `RemoveLast` of the old formula |
| Formulas.FormulaBuilder.GetFormulaString | src/Engine/FormulaBuilder.ts:146-159 | the loop and the trim return the tokens joined by single spaces |
| Formulas.FormulaBuilder.GetCellReferences | src/Engine/FormulaBuilder.ts:166-179 | the loop returns `CellReferences` of the formula |
| Memory.Put | src/Engine/SheetMemory.ts:112-115 | replacing one cell keeps the grid's shape |
| Memory.PutLabel | src/Engine/SheetMemory.ts:151-154 | `setCellByLabel` on the value keeps the grid's shape |
| Memory.PutLabelSame | src/Engine/SheetMemory.ts:151-154 | storing back the cell a label already holds leaves the grid unchanged |
| Memory.SheetExtensionality | src/Engine/SheetMemory.ts:30-31 | two grids of the same shape that agree cell by cell are equal |
| Memory.GridLabel | src/Engine/SheetMemory.ts:139-143 | the label of every grid cell addresses that cell |
| Memory.GetAfterPut | src/Engine/SheetMemory.ts:139-154 | a cell stored by label reads back by that label, and no other cell changes |
| Memory.SheetMemory.ViewAt | src/Engine/SheetMemory.ts:30-31 | the grid's contents at (c, r) are the state of the cell object stored there |
| Memory.SheetMemory.GetWorkingCellByCoordinates | src/Engine/SheetMemory.ts:80-82 | returns the working column and row |
| Memory.SheetMemory.SetWorkingCellByCoordinates | src/Engine/SheetMemory.ts:91-94 | sets the working column and row |
| Memory.SheetMemory.SetWorkingCellByLabel | src/Engine/SheetMemory.ts:102-105 | moves to the coordinates of a well-formed label; any other label throws "Invalid cell name" and nothing moves |
| Memory.SheetMemory.SetCurrentCell | src/Engine/SheetMemory.ts:112-115 | the grid holds the new cell at the working coordinates and nothing else changes |
| Memory.SheetMemory.GetCurrentCell | src/Engine/SheetMemory.ts:123-125 | returns the cell object at the working coordinates |
| Memory.SheetMemory.GetCellByLabel | src/Engine/SheetMemory.ts:139-143 | returns the cell object the label addresses |
| Memory.SheetMemory.SetCellByLabel | src/Engine/SheetMemory.ts:151-154 | the grid becomes `PutLabel` of the old grid with the new cell's state; the cell may not sit elsewhere in the grid |
| Memory.SheetMemory.SetCurrentCellFormula | src/Engine/SheetMemory.ts:162-164 | only the working cell's formula changes |
| Memory.SheetMemory.GetCurrentCellFormula | src/Engine/SheetMemory.ts:173-175 | returns the working cell's formula |
| Memory.SheetMemory.SetCurrentCellValue | src/Engine/SheetMemory.ts:183-186 | only the working cell's value changes |
| Memory.SheetMemory.GetSheetDisplayStrings | src/Engine/SheetMemory.ts:195-208 | a columns-by-rows table, column-major, holding what each cell shows |
| Memory.SheetMemory.SheetContainer | src/Engine/SheetMemory.ts:214-236 | the two loops build `ContainerOf` the grid |
| Memory.SheetMemory.UpdateSheetFromJSON | src/Engine/SheetMemory.ts:244-266 | a stored shape that differs fails with "The JSON string does not match the current sheet" and changes nothing; otherwise every listed label, in order, gets a fresh cell holding its stored entry |
| Memory.SheetMemory.LoadEntries | src/Engine/SheetMemory.ts:252-265 | the loop leaves `LoadCells` of the old grid |
| Memory.SheetMemory.LoadEntry | src/Engine/SheetMemory.ts:253-264 | one turn of the loop loads one more entry |
| Memory.SheetMemory.CreateSheetFromJSON | src/Engine/SheetMemory.ts:274-296 | a new grid of the stored shape with the stored entries loaded into it, working cell at (0, 0) |
| Memory.SheetMemory.constructor | src/Engine/SheetMemory.ts:39-53 | a new grid of fresh, distinct, empty cells, each labelled with its own label, working cell at (0, 0) |
| Memory.EntriesHas | src/Engine/SheetMemory.ts:221-233 | after the walk reaches (column, row), every cell passed is stored under its label with its formula, value and error |
| Memory.EntriesOnly | src/Engine/SheetMemory.ts:221-233 | after the walk reaches (column, row), every stored key is the label of a cell passed |
| Memory.ContainerOfContents | src/Engine/SheetMemory.ts:214-236 | the stored form has the grid's shape and holds exactly the labels of the grid's cells, each with that cell's formula, value and error |
| Memory.LoadCells | src/Engine/SheetMemory.ts:252-265 | loading keeps the grid's shape |
| Memory.CellFromTransport | src/Engine/SheetMemory.ts:254-261 | a fresh cell holding the entry's formula, value and error, with no references and no label |
| Memory.ContainerOfStoredFrom | src/Engine/SheetMemory.ts:214-236 | every stored entry is at a grid label and holds the stored form of the cell there |
| Memory.LoadCellsAt | src/Engine/SheetMemory.ts:252-265 | after loading, a cell addressed by some listed key holds its stored entry; a cell addressed by none is untouched |
| Memory.PutLabelAt | src/Engine/SheetMemory.ts:151-154 | after a write at a label, cell (c, r) is the written cell if the label addresses it, and unchanged otherwise |
| Memory.LoadContainerRoundTrip | src/Engine/SheetMemory.ts:214-266 | storing a sheet and loading all stored labels into a grid of the same shape gives back every cell's formula, value and error, with no references and no label |
| Memory.NewColumn | src/Engine/SheetMemory.ts:47-51 | the inner loop builds `rows` fresh, distinct, empty cells, each labelled with its own label |
| Memory.NewSheet | src/Engine/SheetMemory.ts:39-53 | the new grid has the given shape and every cell is empty with its own label |
| Evaluation.Precedence | src/Engine/FormulaEvaluator.ts:131-142 | `+` and `-` have precedence 1, `*` and `/` precedence 2, every other token 0, and nothing ranks higher than 2 |
| Evaluation.Reduce | src/Engine/FormulaEvaluator.ts:70-82 | the reduction loops only pop operators; when they stop without error, the operator left on top is one the loop's condition does not apply; they can only fail with `#DIV/0!` or the invalid-operator `#ERR` |
| Evaluation.FormulaEvaluator.constructor | src/Engine/FormulaEvaluator.ts:9-19 | a new evaluator reads the given sheet memory and starts with no error and result 0 |
| Evaluation.FormulaEvaluator.Evaluate | src/Engine/FormulaEvaluator.ts:48-97 | on success the error is "" and the result is the formula's value; on an error the message is the one the evaluation stops with, and the previous result is kept |
| Evaluation.FormulaEvaluator.RunTokens | src/Engine/FormulaEvaluator.ts:56-83 | the token loop ends with the stacks of the token semantics, or stops with exactly that semantics' error message |
| Evaluation.FormulaEvaluator.ProcessToken | src/Engine/FormulaEvaluator.ts:57-82 | one token pushes a number or referenced value, stacks "(", reduces to the "(" on ")", or reduces by precedence and stacks an operator; or it records that step's error |
| Evaluation.FormulaEvaluator.ReduceOps | src/Engine/FormulaEvaluator.ts:71-74 | the pop-and-apply loops reach the same stacks as the reduction semantics, or record its error |
| Evaluation.FormulaEvaluator.ApplyOp | src/Engine/FormulaEvaluator.ts:100-128 | pops the right then the left operand and pushes the outcome; a division by 0 or an unknown operator records its message instead |
| Evaluation.FormulaEvaluator.GetCellValue | src/Engine/FormulaEvaluator.ts:186-206 | a referenced cell yields its error (other than `#EMPTY!`) with 0, `#REF!` with 0 when its formula is empty, else its value with "" |
| Evaluation.RunUnfold | src/Engine/FormulaEvaluator.ts:56-83 | one pass of the loop either stops the whole run with its error or hands its stacks to the rest of the tokens |
| Evaluation.SymbolTokens | src/Engine/FormulaEvaluator.ts:163-176 | brackets and operators are neither numbers nor cell references, so they reach the bracket and operator branches |
| Evaluation.LabelIsNoNumber | src/Engine/FormulaEvaluator.ts:57-61 | a cell label is never read as a number, so references reach the reference branch |
| Evaluation.LabelIsNumberFree | src/Engine/FormulaEvaluator.ts:57-61 | a number token is never a cell label |
| Evaluation.OpTokenFacts | src/Engine/FormulaEvaluator.ts:76-82 | an operator token reaches the operator branch and has precedence at least 1 |
| Evaluation.TokensInGrid | src/Engine/FormulaEvaluator.ts:61-67 | every reference in an expression's tokens names a cell of the grid |
| Evaluation.ArithOnNumbers | src/Engine/FormulaEvaluator.ts:100-128 | on two numbers `applyOp` is ordinary arithmetic, with division by 0 the only error |
| Evaluation.RunOpen | src/Engine/FormulaEvaluator.ts:68-69 | "(" is stacked and nothing else changes |
| Evaluation.RunOperatorAfterOpen | src/Engine/FormulaEvaluator.ts:76-82 | an operator right after "(" applies nothing, since "(" has precedence 0, and is stacked |
| Evaluation.RunClose | src/Engine/FormulaEvaluator.ts:70-75 | ")" applies the one operator above its "(" and drops the "(", or stops with that operator's error |
| Evaluation.RunNumber | src/Engine/FormulaEvaluator.ts:59-60 | a number token pushes its value |
| Evaluation.RunFirstOperator | src/Engine/FormulaEvaluator.ts:76-82 | an operator met with no operator stacked is stacked |
| Evaluation.FinishOne | src/Engine/FormulaEvaluator.ts:86-96 | with two values and one operator left, the result is that operator applied to them |
| Evaluation.RunExpr | src/Engine/FormulaEvaluator.ts:56-83 | the tokens of a fully parenthesized expression push that expression's value and leave the operator stack as it was, or stop with the error its value reports |
| Evaluation.EvalMatchesValue | src/Engine/FormulaEvaluator.ts:48-97 | on every fully parenthesized expression `evaluate` computes the value of an independent recursive semantics, errors included |
| Evaluation.RunTwoOperatorsPrefix | src/Engine/FormulaEvaluator.ts:56-82 | in `a o1 b o2 c` the first three tokens leave a and b stacked under o1 |
| Evaluation.RunRightGrouping | src/Engine/FormulaEvaluator.ts:76-89 | an operator of higher precedence is stacked above the lower one and applied first |
| Evaluation.RunLeftGrouping | src/Engine/FormulaEvaluator.ts:76-89 | an operator of equal or lower precedence first applies the one below it |
| Evaluation.EvalTighterRight | src/Engine/FormulaEvaluator.ts:76-89 | without brackets, `a o1 b o2 c` groups as `a o1 (b o2 c)` when o2 binds tighter |
| Evaluation.EvalLeftAssociative | src/Engine/FormulaEvaluator.ts:76-89 | otherwise it groups as `(a o1 b) o2 c`: equal precedence associates to the left |
| Evaluation.ParseTwoOperators | src/Engine/FormulaEvaluator.ts:77-81 | the precedence-correct tree of a two-operator chain is the grouping `EvalTighterRight` and `EvalLeftAssociative` state |
| Evaluation.ParseFromSumFails | src/Engine/FormulaEvaluator.ts:62-65 | once the sum read so far fails, the tree of the whole chain fails with that error |
| Evaluation.ParseFromTermFails | src/Engine/FormulaEvaluator.ts:62-65 | once the current term fails, the tree of the whole chain fails with that error |
| Evaluation.RunLeaf | src/Engine/FormulaEvaluator.ts:59-67 | an operand is pushed as its value, or stops the loop with the error its value reports |
| Evaluation.ReducePending | src/Engine/FormulaEvaluator.ts:77-80 | a stacked `*` or `/` is applied by the operator loop and the final loop alike, and a division by 0 stops them |
| Evaluation.PendingApplied | src/Engine/FormulaEvaluator.ts:76-89 | a stacked `*` or `/` is applied when the next operator or the end arrives, so the rest of the run is the one from its result |
| Evaluation.RunProductStep | src/Engine/FormulaEvaluator.ts:59-81 | a `*` or `/` after a term is stacked above the sum without applying anything, and its operand is pushed |
| Evaluation.RunSumStep | src/Engine/FormulaEvaluator.ts:59-81 | a `+` or `-` first applies the pending additive operator, which cannot fail, then is stacked and its operand pushed |
| Evaluation.ApplySum | src/Engine/FormulaEvaluator.ts:77-80 | the reduction for `+` or `-` leaves exactly the value of the sum read so far |
| Evaluation.ChainRun | src/Engine/FormulaEvaluator.ts:56-97 | from the stacks of a sum and a finished term, the rest of a chain evaluates to the value of its precedence-correct tree |
| Evaluation.ChainProduct | src/Engine/FormulaEvaluator.ts:56-97 | the same when the chain goes on with `*` or `/` |
| Evaluation.ChainSum | src/Engine/FormulaEvaluator.ts:56-97 | the same when the chain goes on with `+` or `-` |
| Evaluation.EvalChain | src/Engine/FormulaEvaluator.ts:48-97 | without brackets, a chain of numbers and cell references of any length evaluates as its precedence-correct tree: `*` and `/` before `+` and `-`, equal precedence from the left, and the tree's first error as the error |
| Evaluation.RunErrorOrigin | src/Engine/FormulaEvaluator.ts:61-82 | a token run that fails reports one of the evaluator's own messages or the error of a cell it refers to |
| Evaluation.EvalErrorOrigin | src/Engine/FormulaEvaluator.ts:48-97 | a failed evaluation reports a non-empty message other than `#EMPTY!`: `#DIV/0!`, `#ERR`, `#REF!` or the error of a referenced cell |
| Evaluation.RunLocal | src/Engine/FormulaEvaluator.ts:56-83 | the token loop reads nothing but the value and error of the cells the tokens refer to |
| Evaluation.EvalLocal | src/Engine/FormulaEvaluator.ts:48-97 | two sheets that agree on every referenced cell give the same result or error, whatever their other cells and size |
| Evaluation.EvalTooManyValues | src/Engine/FormulaEvaluator.ts:91-96 | the formula `a b` of two numbers leaves two values with no operator and gives `#ERR`; no tokens at all give result 0 with no error |
| Evaluation.RunTrailingOperator | src/Engine/FormulaEvaluator.ts:56-82 | the token loop over `a b o` ends with both values stacked and o above them on the operator stack |
| Evaluation.EvalTrailingOperator | src/Engine/FormulaEvaluator.ts:56-96 | `a b o` evaluates as `a o b`: the final loop applies the stacked operator to the two values, so two values in a row are an error only when no operator follows |
| Evaluation.EvalTrailingOperatorExample | src/Engine/FormulaEvaluator.ts:56-96 | `1 2 *` evaluates to 2 |
| Evaluation.EvalDanglingOperator | src/Engine/FormulaEvaluator.ts:100-128 | an operator with no right operand gives 0 through `values.pop() \|\| 0`, except that `a /` with a = 0 gives `#DIV/0!` |
| Evaluation.EvalUnclosedParen | src/Engine/FormulaEvaluator.ts:86-89 | a "(" never closed is applied as an operator at the end, giving `#ERR` |
| Evaluation.EvalTrailingParen | src/Engine/FormulaEvaluator.ts:86-89 | a "(" after a value, as in `8 (`, is applied as an operator at the end, giving `#ERR` |
| Evaluation.EvalEmptyParens | src/Engine/FormulaEvaluator.ts:68-96 | `( )` leaves no value, so the result is 0 with error "" |
| Evaluation.EvalStrayClose | src/Engine/FormulaEvaluator.ts:70-75 | `a )` evaluates to a: with no operator stacked the ")" applies nothing, and popping the empty stack is harmless |
| Evaluation.RunStrayClose | src/Engine/FormulaEvaluator.ts:70-75 | a ")" with no "(" applies the stacked operator to the two values, or stops with its error |
| Evaluation.RunStrayCloseSuffix | src/Engine/FormulaEvaluator.ts:70-96 | after a stray ")" has reduced `x o1 y` to one value, `o2 c` applies o2 to that value at the end |
| Evaluation.RunOneOperatorPrefix | src/Engine/FormulaEvaluator.ts:56-82 | the tokens `a o1 b` leave a and b stacked under o1, whatever follows |
| Evaluation.EvalStrayCloseGroups | src/Engine/FormulaEvaluator.ts:56-96 | `a o1 b ) o2 c` evaluates as `(a o1 b) o2 c`: a ")" with no "(" is not ignored but closes everything before it |
| Evaluation.EvalStrayCloseExample | src/Engine/FormulaEvaluator.ts:70-96 | `1 + 2 ) * 3` evaluates to 9 |
| Evaluation.DigitNumbers | src/Engine/FormulaEvaluator.ts:163-165 | "1", "2", "3" and "8" are numbers with those values |
| Evaluation.EvalPrecedenceExample | src/Engine/FormulaEvaluator.ts:131-142 | `1 + 2 * 3` evaluates to 7 |
| Evaluation.EvalAssociativityExample | src/Engine/FormulaEvaluator.ts:76-82 | `8 / 2 / 2` evaluates to 2 |
| Calculation.RefreshedTo | src/Engine/CalculationManager.ts:124-140 | refreshing the cells before a walk position keeps the grid's shape |
| Calculation.WithDependencies | src/Engine/CalculationManager.ts:124-140 | `updateDependencies` keeps the grid's shape |
| Calculation.WithDependenciesCurrent | src/Engine/CalculationManager.ts:124-140 | afterwards every cell's references are those of its formula, nothing else of any cell has changed, and a grid already up to date is left as it was |
| Calculation.WithDependenciesValidLabels | src/Engine/CalculationManager.ts:133-134 | each rebuilt reference list holds exactly the valid labels of the cell's formula, each once |
| Calculation.RefreshedToStep | src/Engine/CalculationManager.ts:126-138 | one pass of the inner loop refreshes exactly the next cell of the walk |
| Calculation.RefreshedToNextColumn | src/Engine/CalculationManager.ts:125-126 | the end of one column of the walk is the start of the next |
| Calculation.RefreshedToStart | src/Engine/CalculationManager.ts:125 | before the walk nothing is refreshed |
| Calculation.UpdateDependencies | src/Engine/CalculationManager.ts:124-140 | the memory afterwards holds the grid with every cell's references rebuilt from its formula, and no other object changes |
| Calculation.RefreshColumn | src/Engine/CalculationManager.ts:126-138 | the inner loop refreshes one more column of the walk |
| Calculation.RefreshCell | src/Engine/CalculationManager.ts:127-137 | one cell has its references rebuilt and stored back; every other cell stays as it was |
| Calculation.RefreshObject | src/Engine/CalculationManager.ts:129-134 | the cell object at the coordinates takes the references of its own formula, which the grid shows at those coordinates and nowhere else |
| Calculation.WalkOrderedAppend | src/Engine/CalculationManager.ts:163-175 | the label of the next walk position can be appended to a list in walk order |
| Calculation.WalkOrderedLater | src/Engine/CalculationManager.ts:163-175 | a list in walk order up to one position is in walk order up to the next |
| Calculation.PartitionContents | src/Engine/CalculationManager.ts:163-175 | the split puts every cell met so far in exactly one of two lists, the cells without references and the cells with some, each in walk order and each label once |
| Calculation.BeforeColumnEnd | src/Engine/CalculationManager.ts:163-164 | past the last row of a column is the same walk position as the top of the next |
| Calculation.PartitionStep | src/Engine/CalculationManager.ts:168-173 | one more cell goes to the list its reference count selects |
| Calculation.VisitReferencesStep | src/Engine/CalculationManager.ts:184-189 | a reference that is to be processed is visited, any other is skipped |
| Calculation.VisitAllStep | src/Engine/CalculationManager.ts:197-200 | the last loop visits the cells to be processed one after another, stopping when a visit overflows |
| Calculation.VisitFacts | src/Engine/CalculationManager.ts:180-195 | a completed visit extends the order, adds the visited cell, brings in only cells to be processed, and keeps every label once and after the references it has among the cells to be processed |
| Calculation.AppendVisited | src/Engine/CalculationManager.ts:191-194 | adding a cell once its references to be processed are in the order keeps that invariant |
| Calculation.VisitReferencesFacts | src/Engine/CalculationManager.ts:184-189 | the loop over a cell's references keeps the invariant and puts every visited reference in the order |
| Calculation.PrefixMembers | src/Engine/CalculationManager.ts:178 | what a prefix holds the whole holds |
| Calculation.VisitAllFacts | src/Engine/CalculationManager.ts:197-200 | the last loop keeps the invariant and leaves every cell to be processed in the order |
| Calculation.ComputationOrderFacts | src/Engine/CalculationManager.ts:156-202 | a computed order starts with the cells without references, holds every cell to be processed, and nothing else |
| Calculation.ComputationOrderIsPermutation | src/Engine/CalculationManager.ts:156-202 | a computed order lists every grid cell exactly once, and nothing else |
| Calculation.ComputationOrderStartsIndependent | src/Engine/CalculationManager.ts:163-178 | a computed order starts with exactly the cells that have no references, in walk order; every later cell has references |
| Calculation.ComputationOrderIsTopological | src/Engine/CalculationManager.ts:180-200 | in a computed order every cell comes after each cell it refers to |
| Calculation.OrderTopological | src/Engine/CalculationManager.ts:180-200 | the visit's invariant together with the split makes the whole order topological |
| Calculation.VisitTerminates | src/Engine/CalculationManager.ts:180-195 | a visit of a cell whose rank is below the frames left completes, when the references among the cells to be processed have a ranking |
| Calculation.VisitReferencesTerminate | src/Engine/CalculationManager.ts:184-189 | the loop over references of lower rank completes |
| Calculation.VisitAllTerminates | src/Engine/CalculationManager.ts:197-200 | with a frame per rank the last loop completes |
| Calculation.ComputationOrderExists | src/Engine/CalculationManager.ts:156-202 | a grid whose references can be ranked, so that every reference drops in rank, always gets an order with one call frame per grid cell |
| Calculation.RotateCycle | src/Engine/CalculationManager.ts:184-188 | a cycle entered at its second cell is still a cycle |
| Calculation.VisitOnCycle | src/Engine/CalculationManager.ts:180-195 | visiting a cell on a cycle never completes, however many frames are given: the recursion in the source does not end |
| Calculation.VisitReferencesOnCycle | src/Engine/CalculationManager.ts:184-189 | a reference list that holds a cell of a cycle never completes its loop |
| Calculation.VisitAllOnCycle | src/Engine/CalculationManager.ts:197-200 | the last loop never completes when a cell of a cycle is to be visited |
| Calculation.ReferringCellToBeProcessed | src/Engine/CalculationManager.ts:168-173 | a cell with references is among the cells to be processed |
| Calculation.CycleToBeProcessed | src/Engine/CalculationManager.ts:168-173 | a cycle through grid cells runs only through cells to be processed |
| Calculation.CycleMeansNoOrder | src/Engine/CalculationManager.ts:156-202 | on a grid with a cycle of references no order is ever computed |
| Calculation.UpdateComputationOrder | src/Engine/CalculationManager.ts:156-202 | the method computes the order the recursive definition describes, or reports that the call stack overflows |
| Calculation.VisitCells | src/Engine/CalculationManager.ts:197-200 | the last loop visits every cell to be processed in turn, starting from the cells without references |
| Calculation.SplitCells | src/Engine/CalculationManager.ts:163-175 | the loops of the split give the two lists of the walk |
| Calculation.SplitColumn | src/Engine/CalculationManager.ts:164-174 | the inner loop splits one more column |
| Calculation.VisitCell | src/Engine/CalculationManager.ts:180-195 | `visit` extends the order as the recursive definition does, with one frame per call |
| Calculation.VisitReferencesOf | src/Engine/CalculationManager.ts:184-189 | the loop of `visit` over a cell's references agrees with its definition |
| Circularity.ReferencesHaveLabels | src/Engine/CalculationManager.ts:92-93 | the references of a grid cell name grid cells, so `getCellByLabel` can look them up |
| Circularity.ExtendPath | src/Engine/CalculationManager.ts:90-96 | a walk from one reference's references, with that reference in front, is a walk from the list |
| Circularity.CircularTrue | src/Engine/CalculationManager.ts:85-100 | when `checkForIfCircular` answers true there is a chain of references from the list to the target |
| Circularity.CircularEachTrue | src/Engine/CalculationManager.ts:90-97 | when its loop answers true there is such a chain |
| Circularity.CircularEachFalse | src/Engine/CalculationManager.ts:90-97 | when its loop answers false, the walk from every label of the list answered false |
| Circularity.CircularFalse | src/Engine/CalculationManager.ts:85-100 | when it answers false no chain of references from the list reaches the target |
| Circularity.CircularMeaning | src/Engine/CalculationManager.ts:85-100 | `checkForIfCircular` answers true exactly when the target is reachable from the list, in both directions |
| Circularity.CheckEachMeaning | src/Engine/CalculationManager.ts:103-111 | the final loop accepts exactly when the current cell is reachable from none of the cells |
| Circularity.OkToAddMeaning | src/Engine/CalculationManager.ts:67-112 | a reference already present is accepted; otherwise the new one is refused exactly when the current cell is reachable from one of its references or from the new one |
| Circularity.RankedReferences | src/Engine/CalculationManager.ts:63-65 | on a sheet ranked along its references, every reference names a grid cell of lower rank |
| Circularity.CircularTerminates | src/Engine/CalculationManager.ts:85-100 | on a ranked sheet the recursive check completes within a frame per rank |
| Circularity.CircularEachTerminates | src/Engine/CalculationManager.ts:90-97 | its loop completes when every label's rank is below the frames left |
| Circularity.CheckEachTerminates | src/Engine/CalculationManager.ts:103-111 | the final loop completes with a frame per grid cell |
| Circularity.OkToAddTerminates | src/Engine/CalculationManager.ts:63-65 | on a ranked sheet, which has no cycle as the source expects, `okToAddNewDependency` always answers |
| Circularity.PathDescends | src/Engine/CalculationManager.ts:63-65 | every chain of references goes down in rank |
| Circularity.SelfReferenceAccepted | src/Engine/CalculationManager.ts:103-111 | on a ranked sheet a reference of a cell to itself is accepted, because the walk starts from the cell's references and never meets the cell |
| Circularity.NoWayBack | src/Engine/CalculationManager.ts:103-111 | on a ranked sheet neither a cell nor any of its references reaches the cell again |
| Circularity.ChainRefusesCycle | src/Engine/CalculationManager.ts:67-112 | with A1 referring to A2 and A2 to A3, adding a reference from A3 to A1 is refused |
| Circularity.OkToAddNewDependency | src/Engine/CalculationManager.ts:67-112 | the method gives the answer of the recursive definition and changes nothing in the memory |
| Circularity.CheckDependencies | src/Engine/CalculationManager.ts:103-111 | the loop over the references, with the new one appended, agrees with its definition |
| Circularity.CheckEachStep | src/Engine/CalculationManager.ts:104-109 | one turn of that loop looks up a grid cell and asks `checkForIfCircular` about its references |
| Circularity.CheckForIfCircular | src/Engine/CalculationManager.ts:85-100 | the recursive check agrees with its definition, one frame per call, and changes nothing |
| SheetEvaluation.FormulasInGridAfterPut | src/Engine/CalculationManager.ts:48-50 | writing a cell back with its formula unchanged keeps every formula's references in the grid |
| SheetEvaluation.EvaluateInOrder | src/Engine/CalculationManager.ts:38-51 | the evaluation loop keeps the grid's shape and every formula's references in the grid |
| SheetEvaluation.OrderInGrid | src/Engine/CalculationManager.ts:29-32 | after the rebuild every label of a computed order names a grid cell |
| SheetEvaluation.EvaluateInOrderKeeps | src/Engine/CalculationManager.ts:38-51 | the loop writes only errors and values: formulas, references and labels stay |
| SheetEvaluation.AfterEvaluationKeeps | src/Engine/CalculationManager.ts:27-52 | whether or not an order is computed, every cell keeps its formula and label and its references are those of its formula |
| SheetEvaluation.GridLabelsApart | src/Engine/Cell.ts:293-310 | distinct grid labels name distinct cells |
| SheetEvaluation.EvaluateInOrderAgrees | src/Engine/CalculationManager.ts:38-51 | when each formula refers only to cells earlier in the order, every evaluated cell agrees with its formula and goes on agreeing to the end |
| SheetEvaluation.ShiftFirst | src/Engine/CalculationManager.ts:38 | moving the first label of the rest to the part done keeps the whole order |
| SheetEvaluation.AgreesAfterStep | src/Engine/CalculationManager.ts:39-50 | after a cell is evaluated and written back it agrees with its formula, and so do the cells evaluated before it |
| SheetEvaluation.ReferenceEarlierAt | src/Engine/CalculationManager.ts:38 | a reference of the formula at some position of the order comes earlier in it |
| SheetEvaluation.NoDuplicatesApart | src/Engine/CalculationManager.ts:38 | a label already evaluated is not the one being evaluated |
| SheetEvaluation.CellApart | src/Engine/SheetMemory.ts:151-154 | writing the cell at one label leaves the cell at every other grid label as it was |
| SheetEvaluation.ValidIsGridLabel | src/Engine/Cell.ts:268-310 | a valid label naming a grid cell is the grid's own label for that cell |
| SheetEvaluation.DoneStaysAgreed | src/Engine/CalculationManager.ts:48-50 | a cell evaluated earlier still agrees once a later cell is written, because no earlier cell refers to it |
| SheetEvaluation.OrderReferencesEarlier | src/Engine/CalculationManager.ts:29-32 | in the order computed for a sheet with current references, every cell reference of a formula comes before its cell |
| SheetEvaluation.EvaluateSheetConsistent | src/Engine/CalculationManager.ts:27-52 | when the order is computed, every cell afterwards holds what its formula evaluates to on the final sheet: its value, or its error |
| SheetEvaluation.EvaluateSheet | src/Engine/CalculationManager.ts:27-52 | `evaluateSheet` leaves the memory holding the evaluation of the old sheet, completing exactly when an order exists |
| SheetEvaluation.EvaluateCells | src/Engine/CalculationManager.ts:38-51 | the loop over the order gives the sheet of the evaluation loop, from the evaluator's present result |
| SheetEvaluation.EvaluateInOrderStep | src/Engine/CalculationManager.ts:39-50 | one step of the loop evaluates the first cell of the order, writes its error and value, and goes on with the evaluator's new result |
| SheetEvaluation.EvaluateCell | src/Engine/CalculationManager.ts:39-50 | one cell's formula is evaluated and its error and value are written back; every other cell stays as it was |
| Users.ContributingUser.constructor | src/Engine/ContributingUser.ts:11-16 | a new record is on the given cell, not editing, and owns a new builder with an empty formula |
| Users.ContributingUser.SetIsEditing | src/Engine/ContributingUser.ts:22-24 | the editing flag takes the given value and nothing else of the record changes |
| Users.ContributingUser.SetCellLabel | src/Engine/ContributingUser.ts:26-28 | the cell label takes the given value and nothing else of the record changes |
| Users.ContributingUser.GetFormulaBuilder | src/Engine/ContributingUser.ts:34-36 | the getter hands out the record's own builder, not a copy |
| Sessions.NewSession | src/Engine/SpreadSheetController.ts:70-76 | a new controller holds a new sheet of the given size, no users and no locks, and meets both invariants |
| Sessions.NumberIsNoLabel | src/Engine/FormulaBuilder.ts:56-109 | a number token starts with a digit or '.', so it is never a cell label |
| Sessions.AppendTokenInGrid | src/Engine/FormulaBuilder.ts:56-109 | adding a key to a formula whose references are grid cells never makes it refer outside the grid |
| Sessions.RemoveLastInGrid | src/Engine/FormulaBuilder.ts:116-134 | removing the last key keeps every reference in the grid |
| Sessions.FormulaWriteInGrid | src/Engine/SpreadSheetController.ts:220-223 | writing a formula whose references are grid cells keeps every formula's references in the grid |
| Sessions.AfterEvaluationInGrid | src/Engine/CalculationManager.ts:27-52 | after a recomputation every formula and every rebuilt reference names a grid cell |
| Sessions.StoredReady | src/Engine/SpreadSheetController.ts:220-227 | storing a builder's formula and recomputing keeps the session's invariants |
| Sessions.StoredSheet | src/Engine/SpreadSheetController.ts:220-227 | a store writes the builder's formula into the user's cell and recomputes the sheet, keeping both invariants |
| Sessions.StoredKeeps | src/Engine/SpreadSheetController.ts:220-227 | a store puts exactly the builder's formula into the user's cell, changes no other formula and leaves users and locks as they were |
| Sessions.ViewAccessKeeps | src/Engine/SpreadSheetController.ts:78-120 | a view request keeps both invariants, puts the user on the cell, leaves every other user and the sheet as they were, and never grants a lock |
| Sessions.ViewAccessFrame | src/Engine/SpreadSheetController.ts:78-120 | what a view request leaves alone: the sheet, the other users and the holder of every lock that remains |
| Sessions.ViewAccessReady | src/Engine/SpreadSheetController.ts:78-120 | a view request keeps the invariants |
| Sessions.UserUpdateReady | src/Engine/SpreadSheetController.ts:114-118 | a user record on a grid cell with a formula naming grid cells keeps the sheet-side invariant |
| Sessions.UserUpdateLocks | src/Engine/SpreadSheetController.ts:98-118 | replacing a user's record and dropping locks keeps the lock table consistent when every lock the user keeps is on the record's cell and the user is editing there |
| Sessions.OneLockPerUser | src/Engine/SpreadSheetController.ts:149-162 | in a consistent lock table each user holds at most one lock |
| Sessions.EditTargetKeeps | src/Engine/SpreadSheetController.ts:127-131 | moving the user to the cell first keeps the invariants and leaves a lock another user holds on that cell in place |
| Sessions.EditAccessKeeps | src/Engine/SpreadSheetController.ts:124-175 | an edit request keeps both invariants, the sheet and every other user, and leaves the user on the cell |
| Sessions.AcquireKeeps | src/Engine/SpreadSheetController.ts:133-172 | the lock checks, for a user already on the cell, keep both invariants and every other user |
| Sessions.LockGranted | src/Engine/SpreadSheetController.ts:161-168 | granting a free cell to a user on it, who is now editing, keeps the lock table consistent |
| Sessions.EditAccessOutcome | src/Engine/SpreadSheetController.ts:124-175 | an edit request succeeds exactly when the user holds the cell's lock afterwards, and a user who succeeds is editing |
| Sessions.EditAccessGranted | src/Engine/SpreadSheetController.ts:161-172 | on a cell nobody holds the request succeeds, locks the cell for the user and marks the user as editing |
| Sessions.EditAccessHeld | src/Engine/SpreadSheetController.ts:133-136 | a user who holds the cell gets it again and nothing changes |
| Sessions.EditAccessRefused | src/Engine/SpreadSheetController.ts:138-147 | a cell another user holds is refused and its lock stays with that user |
| Sessions.ReleaseKeeps | src/Engine/SpreadSheetController.ts:179-195 | a release keeps both invariants, forgets the user, leaves the user holding no lock and every other user as they were |
| Sessions.ReleaseThenAcquire | src/Engine/SpreadSheetController.ts:179-195 | once the holder has released a cell, another user's edit request for it succeeds |
| Sessions.StaleEditing | src/Engine/SpreadSheetController.ts:107-147 | a user who was editing and asks for a cell another user holds is refused, yet ends up on that cell still marked as editing, and the next token goes into the other user's locked cell |
| Sessions.ViewDropsForeignLock | src/Engine/SpreadSheetController.ts:97-104 | a view request for the cell the user is on drops that cell's lock even when another user holds it |
| Sessions.EditKeeps | src/Engine/SpreadSheetController.ts:216-227 | every edit ends with the builder holding the new formula, the invariants true and the lock table unchanged |
| Sessions.FormulaOnlyLocks | src/Engine/SpreadSheetController.ts:216 | a change to a user's formula alone keeps the locks consistent |
| Sessions.EditWrites | src/Engine/SpreadSheetController.ts:220-223 | an edit writes the new formula into the user's cell and changes no other formula |
| Sessions.WithFormulaReady | src/Engine/SpreadSheetController.ts:216 | a builder formula that names grid cells keeps both invariants |
| Sessions.WithFormulaInGrid | src/Engine/SpreadSheetController.ts:216 | a builder formula that names grid cells keeps the sheet-side invariant |
| Sessions.AddTokenIdle | src/Engine/SpreadSheetController.ts:210-213 | a token from an unregistered user, or from a user who is not editing, changes nothing |
| Sessions.AddTokenEffect | src/Engine/SpreadSheetController.ts:207-228 | for an editing user the builder takes the token and the user's cell takes the builder's formula; the invariants hold and the lock table is unchanged |
| Sessions.AddTokenRecomputes | src/Engine/SpreadSheetController.ts:227 | after an edit for which the rebuilt sheet gets a computation order, every cell holds what its formula evaluates to |
| Sessions.AddCellIgnored | src/Engine/SpreadSheetController.ts:244-255 | a reference from an unknown user, or to the user's own cell, changes nothing |
| Sessions.AddCellExisting | src/Engine/SpreadSheetController.ts:264-270 | a reference the user's cell already has is always added |
| Sessions.AddCellRefusesCycle | src/Engine/SpreadSheetController.ts:262-270 | a new reference from which the user's cell can be reached is never added |
| Sessions.AddCellKeeps | src/Engine/SpreadSheetController.ts:241-271 | adding a cell keeps both invariants, the lock table and the set of users |
| Sessions.RemoveTokenEffect | src/Engine/SpreadSheetController.ts:282-303 | removing a token acts for any registered user, editing or not: the builder loses its last key and the user's cell takes the result, with the invariants and locks kept |
| Sessions.ClearFormulaEffect | src/Engine/SpreadSheetController.ts:310-332 | clearing acts for any registered user, editing or not, and leaves the user's builder and cell with no formula |
| Sessions.RemoveAndClearUnknown | src/Engine/SpreadSheetController.ts:282-320 | an unknown user has nothing to remove or clear |
| Sessions.FormulaStringForReady | src/Engine/SpreadSheetController.ts:354-365 | reloading a builder from its cell keeps both invariants |
| Sessions.FormulaStringForEffect | src/Engine/SpreadSheetController.ts:354-365 | a registered user's formula string is the text of the cell's formula and the builder is reloaded from the cell; an unknown user gets "" and nothing changes |
| Sessions.EditStatusIff | src/Engine/SpreadSheetController.ts:494-532 | in a ready session the status is "editing" exactly for registered users, and the status string names their cell |
| Sessions.GuiDisplayRowMajor | src/Engine/SpreadSheetController.ts:464-483 | the display exists exactly when neither the stored nor the rebuilt references hold a cycle and the sheet has a column; then row r, column c shows cell (c, r) of the recomputed sheet |
| Sessions.GuiDisplayReady | src/Engine/SpreadSheetController.ts:464-466 | the recomputation for the display keeps both invariants |
| Sessions.DocumentContainerEffect | src/Engine/SpreadSheetController.ts:535-552 | an unknown user is first put on A1; the document holds the stored sheet and the user's cell, formula text, shown result and editing flag |
| Controller.SpreadSheetController.constructor | src/Engine/SpreadSheetController.ts:70-76 | a new controller is the new session of the given size and meets its invariant |
| Controller.SpreadSheetController.RequestViewAccess | src/Engine/SpreadSheetController.ts:78-120 | `requestViewAccess` takes the controller to the view-access session and keeps its invariant |
| Controller.SpreadSheetController.RequestEditAccess | src/Engine/SpreadSheetController.ts:124-175 | `requestEditAccess` takes the controller to the edit-access session and returns its answer |
| Controller.SpreadSheetController.LockCell | src/Engine/SpreadSheetController.ts:133-172 | the lock checks take the controller to the state and answer of the lock rules |
| Controller.SpreadSheetController.ReleaseEditAccess | src/Engine/SpreadSheetController.ts:179-195 | `releaseEditAccess` takes the controller to the released session |
| Controller.SpreadSheetController.StoreFormula | src/Engine/SpreadSheetController.ts:217-227 | the builder's formula goes into the user's cell and the sheet is recomputed, as a store does |
| Controller.SpreadSheetController.WriteAndEvaluate | src/Engine/SpreadSheetController.ts:221-227 | the memory holds the evaluation of the sheet with the formula written |
| Controller.SpreadSheetController.WriteFormula | src/Engine/SpreadSheetController.ts:221-223 | the memory holds the sheet with only that cell's formula replaced |
| Controller.SpreadSheetController.AddToken | src/Engine/SpreadSheetController.ts:207-228 | `addToken` takes the controller to the add-token session; an unregistered user leaves it as it was |
| Controller.SpreadSheetController.AddCell | src/Engine/SpreadSheetController.ts:241-271 | `addCell` takes the controller to the add-cell session, with the cycle check as the memory answers it |
| Controller.SpreadSheetController.RemoveToken | src/Engine/SpreadSheetController.ts:282-303 | `removeToken` takes the controller to the remove-token session |
| Controller.SpreadSheetController.ClearFormula | src/Engine/SpreadSheetController.ts:310-332 | `clearFormula` takes the controller to the cleared session |
| Controller.SpreadSheetController.GetFormulaStringForUser | src/Engine/SpreadSheetController.ts:354-365 | returns the formula text of the user's cell and reloads the user's builder from it |
| Controller.SpreadSheetController.GetResultStringForUser | src/Engine/SpreadSheetController.ts:388-397 | returns what the user's cell shows, or "" for an unknown user, and changes nothing |
| Controller.SpreadSheetController.GetWorkingCellLabel | src/Engine/SpreadSheetController.ts:418-425 | returns the user's cell, or "" for an unknown user |
| Controller.SpreadSheetController.GetEditStatus | src/Engine/SpreadSheetController.ts:494-508 | true exactly for a registered user on a cell |
| Controller.SpreadSheetController.GetEditStatusString | src/Engine/SpreadSheetController.ts:518-532 | "browsing" or "editing: " with the user's cell |
| Controller.SpreadSheetController.GetSheetDisplayStringsForGUI | src/Engine/SpreadSheetController.ts:464-483 | recomputes the sheet and returns its display strings in row-major order, or reports the crash cases |
| Controller.SpreadSheetController.Recompute | src/Engine/SpreadSheetController.ts:465-466 | computes the order and re-evaluates the sheet, completing exactly when neither the stored nor the rebuilt references hold a cycle |
| Controller.SpreadSheetController.DocumentContainer | src/Engine/SpreadSheetController.ts:535-552 | `documentContainer` returns the document the session model describes and takes the controller to its state |
| Controller.DisplayRowMajor | src/Engine/SpreadSheetController.ts:468-481 | the display strings of the memory in row-major order, or none on a sheet without columns |
| Controller.Transposed | src/Engine/SpreadSheetController.ts:473-478 | row r, column c of the result is column r, row c of the input, with the transposed dimensions |

## Left out

- Number parsing and formatting: values are `real`, not IEEE doubles. `isNumber`/`Number(token)` is modelled on the calculator keypad's tokens: digits with at most one '.' and at least one digit. So "" is not a number here, although `Number("")` is 0, and exponents and hexadecimal are not modelled. `toString` of a value stays symbolic, as `NumberText(value)`.
- JSON text: `sheetToJSON`, the `JSON.parse` in `updateSheetFromJSON` and `createSheetFromJSON`, and the controller's `sheetToJSON`/`updateSheetFromJSON` forwarding calls are not modelled. The stored form is the `Container` record, a map from label to formula, value and error. The container's key order is an explicit list of keys.
- Labels outside the grid: the model makes an in-grid label a precondition of every operation that reads or writes a cell by label. The source fails in different ways on the labels this excludes:
  - A malformed label makes `cellToColumnRow` throw `Error("Invalid cell name")` (src/Engine/Cell.ts:277-279).
  - A column past the grid makes `getCellByLabel` and `setCellByLabel` fail with a `TypeError` on the missing column.
  - An in-range column with a row past the grid fails differently. Examples are "A6" on a sheet of 5 rows, or "A0", which gives row -1. There `getCellByLabel` returns `undefined` without throwing (src/Engine/SheetMemory.ts:139-142), and the failure comes later, at the caller's `.getFormula()`. `setCellByLabel` stores the cell at that index without any error (src/Engine/SheetMemory.ts:151-153).
  - `requestViewAccess` on such a label first registers a new user (src/Engine/SpreadSheetController.ts:83-85), or moves an existing user and drops their lock (src/Engine/SpreadSheetController.ts:107-112). Only then does the lookup fail. So a failed request leaves the user on the bad label; the model does not capture that state.
- The recursion on a cycle: `visit` and `checkForIfCircular` recurse without end on a cycle of references, and the source then overflows the call stack. The model gives them one call frame per grid cell and answers `None` when the frames run out. `Calculation.ComputationOrderExists`, `Calculation.CycleMeansNoOrder` and `Circularity.OkToAddTerminates` show that this bound answers on every ranked sheet and never on a sheet with a cycle. That every sheet without a cycle can be ranked (the length of its longest chain of references) is not proved, so an acyclic sheet is covered by these lemmas only through a ranking. A crash partway through an operation, such as an overflow inside `evaluateSheet`, is modelled as the state left at that point.
- Controller.SpreadSheetController: the user records are `UserState` values in a map, not `ContributingUser` objects that own a shared builder. Every formula edit loads a fresh `FormulaBuilder` with the record's formula, runs the builder operation and stores the result back. So the aliasing of a user's builder is not modelled. `Users.ContributingUser` models the record class on its own.
- The controller's single-cursor path is not modelled: `getFormulaString`, `getResultString`, `setWorkingCellByLabel`, `setWorkingCellByCoordinates` and the `_formulaBuilder`, `_currentWorkingColumn`, `_currentWorkingRow` and `_cellIsBeingEdited` fields. No multi-user request uses them.
- The getters backed directly by a field are field reads in the model: `getFormula`, `getValue`, `getError`, `getDependsOn`, `getLabel`, the evaluator's `result` and `error`, and `getNumRows`/`getNumColumns`.
- `console.log` in `okToAddNewDependency` is output only.
- Controller.SpreadSheetController.AddToken: for an unregistered user the source's `get(user)!.isEditing` fails with a `TypeError` before anything changes (src/Engine/SpreadSheetController.ts:210-211). The model returns with the state unchanged, which is the state the exception leaves; the exception itself is not reported to the caller.
- `throw new Error("user not found")` and `throw new Error("cell not found")` in the controller sit on branches that cannot be reached while the controller's invariant holds, so they are not modelled.
- `src/Engine/DocumentHolder.ts`, the document server, the HTTP client and the React front end are not part of this model.
