/** CellEvaluator: the evaluation methods over a TableModel, each loop proved to compute
    the resolver function that specifies it. The fuel parameter bounds the nesting of
    stored-cell lookups (see Resolver); None is returned exactly when the specification is
    None, that is when the source would not finish. */
module CellEvaluation {
  import opened Wrappers
  import opened Text
  import opened Addresses
  import opened Formulas
  import opened FormulaLibrary
  import opened Resolver
  import opened ResolverProperties
  import opened TableModels

  class CellEvaluator {
    const model: TableModel

    constructor(model: TableModel)
      ensures this.model == model
    {
      this.model := model;
    }

    /** evaluate: the display text of a cell value. */
    method Evaluate(value: CellValue, fuel: nat) returns (r: Option<string>)
      ensures r == Evaluation(model.cells, value, fuel)
    {
      var result := Resolve(value, fuel);
      match result
      case None => r := None;
      case Some(l) => r := Some(LiteralToString(l));
    }

    /** resolve: a literal itself, a reference the resolution of its target ("#REF!" when
        the target is empty), a formula its evaluation. */
    method Resolve(value: CellValue, fuel: nat) returns (r: Option<Literal>)
      ensures r == Resolution(model.cells, value, fuel)
      decreases fuel, 6
    {
      match value
      case Lit(l) =>
        r := Some(l);
      case Ref(targetAddress) =>
        var targetCellValue := model.GetCellValue(targetAddress);
        if targetCellValue.None? {
          r := Some(Str(RefError));
        } else if fuel == 0 {
          r := None;
        } else {
          r := Resolve(targetCellValue.value, fuel - 1);
        }
      case Formula(formula) =>
        r := EvaluateFormula(formula, fuel);
    }

    /** evaluateFormula: dispatch on the formula's function. */
    method EvaluateFormula(formula: FormulaValue, fuel: nat) returns (r: Option<Literal>)
      ensures r == FormulaResolution(model.cells, formula, fuel)
      decreases fuel, 5
    {
      var args := formula.parameters;
      assert formula == FormulaValue(formula.ftype, args);
      match formula.ftype
      case SUM => r := EvalSum(args, fuel);
      case AVERAGE => r := EvalAverage(args, fuel);
      case MIN => r := EvalMin(args, fuel);
      case MAX => r := EvalMax(args, fuel);
      case CONCAT => r := EvalConcat(args, fuel);
      case SUBSTR => r := EvalSubstr(args, fuel);
      case LEN => r := EvalLen(args, fuel);
      case COUNT => r := EvalCount(args, fuel);
    }

    /** The value of one stored or empty cell, "" when empty. */
    method CellValueOf(address: CellAddress, fuel: nat) returns (r: Option<Literal>)
      ensures r == CellResolution(model.cells, address, fuel, Str(""))
      decreases fuel, 1
    {
      var cellValue := model.GetCellValue(address);
      if cellValue.None? {
        r := Some(Str(""));
      } else if fuel == 0 {
        r := None;
      } else {
        r := Resolve(cellValue.value, fuel - 1);
      }
    }

    /** flattenArgs: each parameter's values appended in order. */
    method FlattenArgs(args: seq<FormulaParam>, fuel: nat) returns (r: Option<seq<Literal>>)
      ensures r == Flattened(model.cells, args, fuel)
      decreases fuel, 3
    {
      var flattened: seq<Literal> := [];
      var i := 0;
      while i < |args|
        invariant 0 <= i <= |args|
        invariant Flattened(model.cells, args[..i], fuel) == Some(flattened)
      {
        var param := args[i];
        assert args[..i + 1] == args[..i] + [param];
        FlattenedSnoc(model.cells, args[..i], param, fuel);
        match param {
          case LitParam(l) =>
            flattened := flattened + [l];
          case CellParam(address) =>
            var value := CellValueOf(address, fuel);
            if value.None? {
              FlattenedPrefixNone(model.cells, args, i + 1, fuel);
              return None;
            }
            flattened := flattened + [value.value];
          case RangeParam(range) =>
            var rangeValues := ExpandRange(range, fuel);
            if rangeValues.None? {
              FlattenedPrefixNone(model.cells, args, i + 1, fuel);
              return None;
            }
            flattened := flattened + rangeValues.value;
        }
        i := i + 1;
      }
      assert args[..i] == args;
      r := Some(flattened);
    }

    /** expandRange: the rectangle's cells row by row from the smaller row, each row from
        the smaller column. */
    method ExpandRange(range: AddressRange, fuel: nat) returns (r: Option<seq<Literal>>)
      ensures r == CellsResolution(model.cells, RangeCells(range), fuel)
      decreases fuel, 2
    {
      var startRow, startCol := range.start.row, range.start.column;
      var endRow, endCol := range.end.row, range.end.column;
      var minRow, maxRow := MinNat(startRow, endRow), MaxNat(startRow, endRow);
      var minCol, maxCol := MinNat(startCol, endCol), MaxNat(startCol, endCol);
      ghost var cells := RangeCells(range);
      ghost var w := Width(range);
      ghost var k: nat := 0;
      var expandedValues: seq<Literal> := [];
      var row := minRow;
      while row <= maxRow
        invariant minRow <= row <= maxRow + 1
        invariant k == (row - minRow) * w && k <= |cells|
        invariant CellsResolution(model.cells, cells[..k], fuel) == Some(expandedValues)
      {
        var col := minCol;
        ghost var rowStart := k;
        while col <= maxCol
          invariant minCol <= col <= maxCol + 1
          invariant k == rowStart + (col - minCol) && k <= |cells|
          invariant CellsResolution(model.cells, cells[..k], fuel) == Some(expandedValues)
        {
          RangeCellsAt(range, row - minRow, col - minCol);
          var value := CellValueOf(CellAddress(row, col), fuel);
          ExpandStep(model.cells, cells, k, fuel, expandedValues);
          if value.None? {
            return None;
          }
          expandedValues := expandedValues + [value.value];
          col := col + 1;
          k := k + 1;
        }
        assert k == (row + 1 - minRow) * w;
        row := row + 1;
      }
      assert cells[..k] == cells;
      r := Some(expandedValues);
    }

    /** The resolved values of a lone range parameter. */
    method RangeArgument(args: seq<FormulaParam>, fuel: nat) returns (r: Option<seq<Literal>>)
      requires SingleRange(args) || RangeAndLiteral(args)
      ensures r == CellsResolution(model.cells, RangeCells(args[0].range), fuel)
      decreases fuel, 3
    {
      r := ExpandRange(args[0].range, fuel);
    }

    method EvalSum(args: seq<FormulaParam>, fuel: nat) returns (r: Option<Literal>)
      ensures r == FormulaResolution(model.cells, FormulaValue(SUM, args), fuel)
      decreases fuel, 4
    {
      var flattened := FlattenArgs(args, fuel);
      if flattened.None? {
        return None;
      }
      var values := flattened.value;
      if ContainsErrorLiteral(values) || |values| == 0 {
        return Some(Str(ValueError));
      }
      var sum := SumValues(values);
      r := Some(sum);
    }

    method EvalAverage(args: seq<FormulaParam>, fuel: nat) returns (r: Option<Literal>)
      ensures r == FormulaResolution(model.cells, FormulaValue(AVERAGE, args), fuel)
      decreases fuel, 4
    {
      var flattened := FlattenArgs(args, fuel);
      if flattened.None? {
        return None;
      }
      var values := flattened.value;
      if ContainsErrorLiteral(values) || |values| == 0 {
        return Some(Str(ValueError));
      }
      var average := AverageValues(values);
      r := Some(average);
    }

    method EvalMin(args: seq<FormulaParam>, fuel: nat) returns (r: Option<Literal>)
      ensures r == FormulaResolution(model.cells, FormulaValue(MIN, args), fuel)
      decreases fuel, 4
    {
      if !SingleRange(args) {
        return Some(Str(ValueError));
      }
      var expanded := RangeArgument(args, fuel);
      if expanded.None? {
        return None;
      }
      var values := expanded.value;
      if ContainsErrorLiteral(values) {
        return Some(Str(ValueError));
      }
      var minimum := MinValues(values);
      r := Some(minimum);
    }

    method EvalMax(args: seq<FormulaParam>, fuel: nat) returns (r: Option<Literal>)
      ensures r == FormulaResolution(model.cells, FormulaValue(MAX, args), fuel)
      decreases fuel, 4
    {
      if !SingleRange(args) {
        return Some(Str(ValueError));
      }
      var expanded := RangeArgument(args, fuel);
      if expanded.None? {
        return None;
      }
      var values := expanded.value;
      if ContainsErrorLiteral(values) {
        return Some(Str(ValueError));
      }
      var maximum := MaxValues(values);
      r := Some(maximum);
    }

    method EvalConcat(args: seq<FormulaParam>, fuel: nat) returns (r: Option<Literal>)
      ensures r == FormulaResolution(model.cells, FormulaValue(CONCAT, args), fuel)
      decreases fuel, 4
    {
      if !RangeAndLiteral(args) {
        return Some(Str(ValueError));
      }
      var expanded := RangeArgument(args, fuel);
      if expanded.None? {
        return None;
      }
      var rangeValues := expanded.value;
      if ContainsErrorLiteral(rangeValues) {
        return Some(Str(ValueError));
      }
      var delimiter := StringValue(args[1].literal);
      var joined := ConcatValues(rangeValues, delimiter);
      r := Some(joined);
    }

    method EvalSubstr(args: seq<FormulaParam>, fuel: nat) returns (r: Option<Literal>)
      ensures r == FormulaResolution(model.cells, FormulaValue(SUBSTR, args), fuel)
      decreases fuel, 4
    {
      if |args| != 3 || args[0].RangeParam? {
        return Some(Str(ValueError));
      }
      var flattened := FlattenArgs(args, fuel);
      if flattened.None? {
        return None;
      }
      var values := flattened.value;
      if ContainsErrorLiteral(values) {
        return Some(Str(ValueError));
      }
      var text := StringValue(values[0]);
      var startValue := NumericValue(values[1]);
      var lengthValue := NumericValue(values[2]);
      if startValue.None? || lengthValue.None? {
        return Some(Str(ValueError));
      }
      var start, length := startValue.value, lengthValue.value;
      if start < 1 || length <= 0 {
        return Some(Str(ValueError));
      }
      start := start - 1;
      if start >= |text| {
        return Some(Str(ValueError));
      }
      if start + length > |text| {
        return Some(Str(ValueError));
      }
      r := Some(Str(text[start..start + length]));
    }

    method EvalLen(args: seq<FormulaParam>, fuel: nat) returns (r: Option<Literal>)
      ensures r == FormulaResolution(model.cells, FormulaValue(LEN, args), fuel)
      decreases fuel, 4
    {
      if |args| != 1 || args[0].RangeParam? {
        return Some(Str(ValueError));
      }
      var flattened := FlattenArgs(args, fuel);
      if flattened.None? {
        return None;
      }
      var values := flattened.value;
      if ContainsErrorLiteral(values) {
        return Some(Str(ValueError));
      }
      var text := StringValue(values[0]);
      r := Some(Int(|text|));
    }

    method EvalCount(args: seq<FormulaParam>, fuel: nat) returns (r: Option<Literal>)
      ensures r == FormulaResolution(model.cells, FormulaValue(COUNT, args), fuel)
      decreases fuel, 4
    {
      if !SingleRange(args) {
        return Some(Str(ValueError));
      }
      var expanded := RangeArgument(args, fuel);
      if expanded.None? {
        return None;
      }
      var values := expanded.value;
      if ContainsErrorLiteral(values) {
        return Some(Str(ValueError));
      }
      var count := CountValues(values);
      r := Some(count);
    }
  }

  // ---------------------------------------------------------------------------------
  // The loops of the eval functions, over the values flattenArgs or expandRange gave.

  /** evalSUM's loop: the numeric values added up, "#VALUE!" when there is none. */
  method SumValues(values: seq<Literal>) returns (r: Literal)
    requires !ContainsErrorLiteral(values) && values != []
    ensures r == SumOf(values)
  {
    var sum := 0;
    var hasNumeric := false;
    var i := 0;
    while i < |values|
      invariant 0 <= i <= |values|
      invariant sum == Sum(Numerics(values[..i]))
      invariant hasNumeric <==> Numerics(values[..i]) != []
    {
      assert values[..i + 1][..i] == values[..i];
      var num := NumericValue(values[i]);
      if num.Some? {
        sum := sum + num.value;
        hasNumeric := true;
      }
      i := i + 1;
    }
    assert values[..i] == values;
    if !hasNumeric {
      return Str(ValueError);
    }
    r := Int(sum);
  }

  /** evalAVERAGE's loop: the sum and the count of the numeric values, "#VALUE!" when
      there is none. */
  method AverageValues(values: seq<Literal>) returns (r: Literal)
    requires !ContainsErrorLiteral(values) && values != []
    ensures r == AverageOf(values)
  {
    var sum := 0;
    var count := 0;
    var i := 0;
    while i < |values|
      invariant 0 <= i <= |values|
      invariant sum == Sum(Numerics(values[..i]))
      invariant count == |Numerics(values[..i])|
    {
      assert values[..i + 1][..i] == values[..i];
      var num := NumericValue(values[i]);
      if num.Some? {
        sum := sum + num.value;
        count := count + 1;
      }
      i := i + 1;
    }
    assert values[..i] == values;
    if count == 0 {
      return Str(ValueError);
    }
    r := Str(AverageText(sum, count));
  }

  /** evalMIN's loop. */
  method MinValues(values: seq<Literal>) returns (r: Literal)
    requires !ContainsErrorLiteral(values)
    ensures r == MinOf(values)
  {
    // evalMIN starts minVal at the largest double; here it starts at 0 and the first
    // numeric entry replaces it because foundNumeric is still false.
    var minVal := 0;
    var foundNumeric := false;
    var i := 0;
    while i < |values|
      invariant 0 <= i <= |values|
      invariant foundNumeric <==> Numerics(values[..i]) != []
      invariant foundNumeric ==> minVal == Minimum(Numerics(values[..i]))
    {
      assert values[..i + 1][..i] == values[..i];
      var num := NumericValue(values[i]);
      if num.Some? {
        minVal := if !foundNumeric || num.value < minVal then num.value else minVal;
        foundNumeric := true;
      }
      i := i + 1;
    }
    assert values[..i] == values;
    if !foundNumeric {
      return Str(ValueError);
    }
    r := Int(minVal);
  }

  /** evalMAX's loop. */
  method MaxValues(values: seq<Literal>) returns (r: Literal)
    requires !ContainsErrorLiteral(values)
    ensures r == MaxOf(values)
  {
    // evalMAX starts maxVal at the lowest double; here it starts at 0 and the first
    // numeric entry replaces it because foundNumeric is still false.
    var maxVal := 0;
    var foundNumeric := false;
    var i := 0;
    while i < |values|
      invariant 0 <= i <= |values|
      invariant foundNumeric <==> Numerics(values[..i]) != []
      invariant foundNumeric ==> maxVal == Maximum(Numerics(values[..i]))
    {
      assert values[..i + 1][..i] == values[..i];
      var num := NumericValue(values[i]);
      if num.Some? {
        maxVal := if !foundNumeric || maxVal < num.value then num.value else maxVal;
        foundNumeric := true;
      }
      i := i + 1;
    }
    assert values[..i] == values;
    if !foundNumeric {
      return Str(ValueError);
    }
    r := Int(maxVal);
  }

  /** evalCONCAT's loop: the non-empty texts joined by the delimiter, "#VALUE!" when all
      of a non-empty range are empty. */
  method ConcatValues(rangeValues: seq<Literal>, delimiter: string) returns (r: Literal)
    requires !ContainsErrorLiteral(rangeValues)
    ensures r == ConcatOf(rangeValues, delimiter)
  {
    var result := "";
    var firstValue := true;
    var i := 0;
    ghost var kept: seq<string> := [];
    while i < |rangeValues|
      invariant 0 <= i <= |rangeValues|
      invariant kept == NonEmptyStrings(rangeValues[..i])
      invariant result == JoinStrings(kept, delimiter)
      invariant firstValue <==> kept == []
    {
      var currentString := StringValue(rangeValues[i]);
      ConcatStep(rangeValues, i, delimiter);
      if currentString != "" {
        if !firstValue {
          result := result + delimiter;
        }
        result := result + currentString;
        firstValue := false;
        kept := kept + [currentString];
      }
      i := i + 1;
    }
    assert rangeValues[..i] == rangeValues;
    if result == "" && |rangeValues| != 0 {
      return Str(ValueError);
    }
    r := Str(result);
  }

  /** evalCOUNT's loop: the values that are neither empty text nor text that is not a
      number. */
  method CountValues(values: seq<Literal>) returns (r: Literal)
    requires !ContainsErrorLiteral(values)
    ensures r == CountOf(values)
  {
    var count := 0;
    var i := 0;
    while i < |values|
      invariant 0 <= i <= |values|
      invariant count == CountCounted(values[..i])
    {
      assert values[..i + 1][..i] == values[..i];
      var lv := values[i];
      var isEmptyString := lv.Str? && lv.text == "";
      var isNaN := lv.Str? && NumericValue(lv).None?;
      if !isEmptyString && !isNaN {
        count := count + 1;
      }
      i := i + 1;
    }
    assert values[..i] == values;
    r := Int(count);
  }
}
