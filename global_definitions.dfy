/** The error strings a cell can carry, and the transport records of a sheet. */
module GlobalDefinitions {

  const Partial := "#ERR"
  const DivideByZero := "#DIV/0!"
  const InvalidCell := "#REF!"
  const InvalidFormula := "#ERR"
  const InvalidNumber := "#ERR"
  const InvalidOperator := "#ERR"
  const MissingParentheses := "#ERR"
  /** Not an error: marks a cell that has never been given a formula. */
  const EmptyFormula := "#EMPTY!"

  /** What is stored of one cell in a document. */
  datatype CellTransport = CellTransport(formula: seq<string>, value: real, error: string)
}
