/**
  A contributing user: the record the controller keeps for each user of a document, holding
  the label of the cell the user is on, whether the user is editing it, and the user's own
  formula builder.
 */
module Users {
  import opened Formulas

  class ContributingUser {
    /** The builder is created with the record and never replaced. */
    const formulaBuilder: FormulaBuilder
    var cellLabel: string
    var isEditing: bool

    /** A new record is on the given cell, not editing, with an empty formula. */
    constructor(l: string)
      ensures cellLabel == l && !isEditing
      ensures fresh(formulaBuilder) && formulaBuilder.formula == []
    {
      formulaBuilder := new FormulaBuilder();
      cellLabel := l;
      isEditing := false;
    }

    method SetIsEditing(editing: bool)
      modifies this`isEditing
      ensures isEditing == editing
    {
      isEditing := editing;
    }

    method SetCellLabel(l: string)
      modifies this`cellLabel
      ensures cellLabel == l
    {
      cellLabel := l;
    }

    /** The getter hands out the owned builder itself, so edits made through it stay in the record. */
    method GetFormulaBuilder() returns (builder: FormulaBuilder)
      ensures builder == formulaBuilder
    {
      builder := formulaBuilder;
    }
  }
}
