/** The value types of Formula.h and Event.h, and the stored cell value that TableParser.cpp
    and the evaluator switch over: a literal, a reference to another cell, or a formula. */
module Formulas {
  import opened Addresses

  /** LiteralValue: std::variant<int, bool, std::string>. */
  datatype Literal = Int(n: int) | Bool(b: bool) | Str(text: string)

  /** AddressRange: two corners, in either order. */
  datatype AddressRange = AddressRange(start: CellAddress, end: CellAddress)

  /** FormulaParam: std::variant<LiteralValue, CellAddress, AddressRange>. */
  datatype FormulaParam =
    | LitParam(literal: Literal)
    | CellParam(address: CellAddress)
    | RangeParam(range: AddressRange)

  datatype FormulaType = SUM | AVERAGE | MIN | MAX | CONCAT | SUBSTR | LEN | COUNT

  datatype FormulaValue = FormulaValue(ftype: FormulaType, parameters: seq<FormulaParam>)

  /** CellValue: what the cell store holds at an address. */
  datatype CellValue =
    | Lit(literal: Literal)
    | Ref(target: CellAddress)
    | Formula(formula: FormulaValue)

  /** Event: the four edits the command parser produces. */
  datatype Event =
    | InsertEvent(target: CellAddress, value: Literal)
    | DeleteEvent(target: CellAddress)
    | ReferenceEvent(target: CellAddress, source: CellAddress)
    | FormulaEvent(target: CellAddress, formula: FormulaType, params: seq<FormulaParam>)
}
