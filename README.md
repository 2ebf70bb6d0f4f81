# Excel console spreadsheet: a verified model of its core

The repository is a small console spreadsheet written in C++. Its parts are:

- **Cell store.** A sparse table of cells. Each cell holds a literal (a number, a boolean or a string), a reference to another cell, or a formula.
- **Formulas.** SUM, AVERAGE, MIN, MAX, CONCAT, SUBSTR, LEN and COUNT, over literals, single cells and rectangular ranges.
- **Display cache.** It holds the text each stored cell evaluates to. It is rebuilt after every edit.
- **Command parser.** It turns typed commands (`A1 insert 5`, `A1 delete`, `B1=A1`, `B2=SUM(A1:A3, 5)`) into events.
- **Serialisation.** The text format for saving and loading cells.
- **Configuration parser.** It reads `name:value` lines.
- **Table view.** Pure helpers that compute labels, column widths and padded cell text.

This project models that core in Dafny and proves properties of the model. The model follows the form of each source file:

- **Value code is pure.** Addresses, literals, formulas and events are datatypes. Parsing, the codecs, the formula library and the resolver are functions.
- **Stateful code is imperative.** `TableModel`, `DisplayableTableModel`, `TableViewModel`, `CellEvaluator` and `TableConfigurationParser` are classes. They have the source's fields and their methods carry `modifies` frames.
- **Loops stay loops.** Every loop in the source except the one in `containsErrorLiteral` is a `method` with a `while` loop. That loop only tests a predicate over the values, and it is the function `FormulaLibrary.ContainsErrorLiteral`. Each such method is proved equal to a specification function:
  - the letter loops of `CellAddress`;
  - the accumulation loops of the `eval*` functions;
  - the serialise and getline loops of `TableParser`;
  - the token loop of `EventParser`;
  - the line loop and the missing-property loop of `TableConfigurationParser`;
  - the re-display loop of `TableViewModel`;
  - the width and padding loops of `TableView`.

  The properties are then proved as lemmas about those functions.

Addresses use the source's convention: the letters give the row (`A` is row 0, `Z` row 25, `AA` row 26) and the digits give the column plus one.

Cell evaluation uses a fuel bound:

- **Fuel.** `CellEvaluator::resolve` follows references and evaluates formulas with no cycle guard. In the model, every step through a stored cell consumes one unit of fuel, and `None` means the source would recurse without bound.
- **Monotonicity.** Once a value is reached, more fuel never changes it (`ResolverProperties.EvaluationMonotone`).
- **Cycles.** A reference cycle never yields a value (`ResolverProperties.CycleDiverges`).
- **View model.** `TableViewModel` is verified for stores whose cells all evaluate (`ViewModel.Terminates`). After construction and after every handled event, the display cache is exactly the evaluation of the store.

Numbers are modelled as mathematical integers. Where the source converts text to an `int` with `std::stoi`, values above 2147483647 take the `out_of_range` path explicitly.

## Model

| member | source | states |
|---|---|---|
| Addresses.Make | CellAddress.cpp:5-9 | the constructor accepts exactly the non-negative row and column and stores both unchanged |
| Addresses.RowLabel | CellAddress.cpp:57-66 | a row's label is a non-empty run of upper-case letters |
| Addresses.RowIndex | CellAddress.cpp:45-55 | `parseRow` succeeds exactly on all-upper-case text, and a non-empty label gives a non-negative row |
| Addresses.AlphaPrefix | CellAddress.cpp:12-13 | the letter scan stops at the first non-letter, and everything before it is a letter |
| Addresses.ParseAddress | CellAddress.cpp:11-32 | `fromString` rejects text with no letters or no digits, a non-digit after the letters, and lower-case letters |
| Addresses.RowToString | CellAddress.cpp:57-66 | the division loop builds exactly the bijective base-26 label |
| Addresses.ParseRow | CellAddress.cpp:45-55 | the accumulation loop returns exactly the label's row, or the error for a non-upper-case letter |
| Addresses.FromString | CellAddress.cpp:11-32 | the scanning method returns exactly `ParseAddress` of its input |
| Addresses.LettersValueOfLetters | CellAddress.cpp:45-66 | reading back the letters written for n gives n |
| Addresses.LettersOfLettersValue | CellAddress.cpp:45-66 | writing the value of any upper-case text gives that text back |
| Addresses.RowIndexOfRowLabel | CellAddress.cpp:45-66 | `parseRow(rowToString(r)) == r` for every row |
| Addresses.RowLabelOfRowIndex | CellAddress.cpp:45-66 | every non-empty upper-case text is the label of the row `parseRow` gives it |
| Addresses.RowLabelExamples | CellAddress.cpp:57-66 | rows 0, 25, 26, 27, 701 and 702 are labelled A, Z, AA, AB, ZZ and AAA |
| Addresses.AlphaPrefixOfLabel | CellAddress.cpp:12-13 | on a label followed by digits, the letter scan stops exactly after the label |
| Addresses.ParseAddressIff | CellAddress.cpp:11-32 | `fromString` yields an address exactly when the text is its row label followed by decimal digits whose value is the column plus one and fits an `int` |
| Addresses.ParseToString | CellAddress.cpp:11-36 | parsing the text of any address whose column fits gives the address back |
| Addresses.ToStringParse | CellAddress.cpp:11-36 | an accepted text without leading zeros is exactly the text of the address it parses to |
| Addresses.ToStringDigits | CellAddress.cpp:34-36 | the digit part of `toString` has no leading zero and is the column plus one |
| Addresses.ToString | CellAddress.cpp:34-36 | `toString`: the row label followed by the decimal text of column + 1; `ToStringDigits`, `ParseToString` and `ToStringParse` state its properties |
| Addresses.ZeroColumnRejected | CellAddress.cpp:5-31 | "A0" is rejected, since column -1 fails the constructor check |
| Addresses.LowerCaseRejected | CellAddress.cpp:45-50 | "a1" is rejected by the upper-case check |
| Addresses.TrailingTextRejected | CellAddress.cpp:22-26 | "A1x" is rejected by the digit check |
| Addresses.SecondColumnExample | CellAddress.cpp:11-32 | "B12" is row 1, column 11 |
| Text.Stoi | CellAddress.cpp:29 | `std::stoi` on digit text succeeds exactly when the value fits a 32-bit `int`, and then yields that value |
| Text.IndexOf | TableParser.cpp:126 | `find` gives the first position of the character, or none exactly when it does not occur |
| Text.SplitAll | TableParser.cpp:185-195 | splitting gives at least one piece, and no piece holds the delimiter |
| Text.SplitJoin | TableParser.cpp:145-195 | splitting a delimiter-joined list of delimiter-free pieces gives the pieces back |
| Text.GetlineJoin | TableParser.cpp:185-195 | a `getline` loop over a joined list of non-empty, delimiter-free pieces reads exactly those pieces |
| Text.Trim | EventParser.cpp:53-54 | the two `erase` calls leave text that neither starts nor ends with a space or tab, and keep only characters of the input |
| Text.TrimSlice | EventParser.cpp:53-54 | the trimmed text is a slice of the input, and everything removed before and after it is spaces and tabs |
| Text.DecimalOfNatToDecimal | CellAddress.cpp:29-36 | the decimal text of n reads back as n |
| Text.NatToDecimalOfDecimal | CellAddress.cpp:29-36 | digit text without leading zeros is the decimal text of its value |
| FormulaLibrary.LiteralToString | CellEvaluator.cpp:8-22 | `literalValueToString`: an `int` as its decimal text, a `bool` as TRUE or FALSE, a string as itself |
| FormulaLibrary.NumericValue | CellEvaluator.cpp:25-50 | `getNumericValue`: an `int` is itself, a `bool` is 1 or 0, a string is its value when the whole string is number text, and none (NaN) otherwise |
| FormulaLibrary.IsErrorText | CellEvaluator.cpp:166-176 | the texts `containsErrorLiteral` treats as errors: `#VALUE!`, `#REF!`, `#DIV/0!`, `#NAME?` and anything starting with `#ERROR!` |
| FormulaLibrary.SumOf | CellEvaluator.cpp:241-265 | `evalSUM` on resolved values: `#VALUE!` when poisoned, empty or without a numeric value, else the sum of the numeric values; `SumOfError` and `SumOfAppend` state its properties |
| FormulaLibrary.AverageOf | CellEvaluator.cpp:267-292 | `evalAVERAGE` on resolved values: SUM's error cases, else the six-decimal text of the mean of the numeric values |
| FormulaLibrary.MinOf | CellEvaluator.cpp:294-320 | `evalMIN` on resolved values: `#VALUE!` when poisoned or without a numeric value, else the least numeric value; `MinOfSpec` states it |
| FormulaLibrary.MaxOf | CellEvaluator.cpp:322-348 | `evalMAX` on resolved values: `#VALUE!` when poisoned or without a numeric value, else the greatest numeric value; `MaxOfSpec` states it |
| FormulaLibrary.ConcatOf | CellEvaluator.cpp:350-380 | `evalCONCAT` on resolved values: `#VALUE!` when poisoned or when no text is non-empty, else the non-empty texts joined by the delimiter; `ConcatOfSpec` states it |
| FormulaLibrary.SubstrOf | CellEvaluator.cpp:382-421 | `evalSUBSTR` on resolved values: `#VALUE!` for a poisoned list, a non-whole or out-of-range start or length, else the 1-based slice; `SubstrOfSpec` states it |
| FormulaLibrary.LenOf | CellEvaluator.cpp:423-436 | `evalLEN` on resolved values: `#VALUE!` when poisoned, else the length of the first value's text; `LenOfSpec` states it |
| FormulaLibrary.CountOf | CellEvaluator.cpp:438-461 | `evalCOUNT` on resolved values: `#VALUE!` when poisoned, else the number of counted values; `CountOfSpec` and `CountedIff` state it |
| FormulaLibrary.StringValue | CellEvaluator.cpp:53-64 | `getStringValue` agrees with `literalValueToString` on every literal |
| FormulaLibrary.ContainsErrorLiteral | CellEvaluator.cpp:166-176 | true exactly when some value is a `#VALUE!`, `#REF!`, `#DIV/0!` or `#NAME?` string, or a string starting with `#ERROR!` |
| FormulaLibrary.Minimum | CellEvaluator.cpp:294-320 | the minimum is one of the numbers and is at most each of them |
| FormulaLibrary.Maximum | CellEvaluator.cpp:322-348 | the maximum is one of the numbers and is at least each of them |
| FormulaLibrary.NonEmptyStrings | CellEvaluator.cpp:350-380 | CONCAT keeps only non-empty texts, and never more texts than values |
| FormulaLibrary.FixedDigits | CellEvaluator.cpp:291 | the fraction of the AVERAGE text has exactly six digits, and they read back as the value modulo 10^6 |
| FormulaLibrary.PoisonedArguments | CellEvaluator.cpp:241-461 | an error value among the arguments makes every formula yield `#VALUE!` |
| FormulaLibrary.SumOfError | CellEvaluator.cpp:241-265 | SUM yields `#VALUE!` exactly when an argument is an error, there are no arguments, or no argument is numeric; otherwise it yields a number |
| FormulaLibrary.SumOfAppend | CellEvaluator.cpp:241-265 | the sum over two argument lists is the sum of the two sums |
| FormulaLibrary.SumSkipsText | CellEvaluator.cpp:25-50 | a non-numeric, non-error text among the arguments leaves SUM unchanged |
| FormulaLibrary.AverageOfError | CellEvaluator.cpp:267-292 | AVERAGE fails exactly when SUM of the same arguments fails |
| FormulaLibrary.AverageTextIsNumber | CellEvaluator.cpp:291 | the AVERAGE text is a '-' exactly for a negative sum, an integer part without leading zeros, a '.' and six digits; together the digits are the rounded mean's magnitude in millionths |
| FormulaLibrary.ScaledRoundedNearest | CellEvaluator.cpp:291 | the rounded number of millionths is within half a millionth of the exact mean |
| FormulaLibrary.AverageTextWhole | CellEvaluator.cpp:291 | an exact average is printed as the quotient followed by `.000000` |
| FormulaLibrary.MinOfSpec | CellEvaluator.cpp:294-320 | MIN fails exactly on an error or when no argument is numeric; otherwise it is a numeric argument and at most every numeric argument |
| FormulaLibrary.MaxOfSpec | CellEvaluator.cpp:322-348 | MAX fails exactly on an error or when no argument is numeric; otherwise it is a numeric argument and at least every numeric argument |
| FormulaLibrary.ConcatStep | CellEvaluator.cpp:365-374 | each loop step appends a non-empty text after the delimiter, or skips an empty one |
| FormulaLibrary.ConcatOfSpec | CellEvaluator.cpp:350-380 | CONCAT is the delimiter-joined list of the non-empty texts, and fails on an error or when every text is empty |
| FormulaLibrary.ConcatWithoutDelimiter | CellEvaluator.cpp:350-380 | with no delimiter, CONCAT is the plain concatenation of the texts |
| FormulaLibrary.SubstrOfSpec | CellEvaluator.cpp:382-421 | SUBSTR yields the one-based slice of the given length when start and length are positive and in bounds, and `#VALUE!` otherwise |
| FormulaLibrary.LenOfSpec | CellEvaluator.cpp:423-436 | LEN is the length of the first argument's text |
| FormulaLibrary.CountedIff | CellEvaluator.cpp:452-458 | COUNT counts exactly numbers, booleans and integer texts |
| FormulaLibrary.CountOfSpec | CellEvaluator.cpp:438-461 | COUNT is the number of counted positions and never exceeds the number of values |
| FormulaLibrary.CountCountedPositions | CellEvaluator.cpp:438-461 | the running count equals the size of the set of counted positions |
| FormulaLibrary.NumericsMembers | CellEvaluator.cpp:25-50 | the numbers taken from the arguments are exactly their numeric values |
| FormulaLibrary.NumericsEmpty | CellEvaluator.cpp:25-50 | no number is taken exactly when no argument is numeric |
| FormulaLibrary.NumericsAppend | CellEvaluator.cpp:179-205 | the numbers of two argument lists are those of each list, in order |
| FormulaLibrary.SumAppend | CellEvaluator.cpp:241-265 | summation distributes over concatenation |
| FormulaLibrary.ErrorAppend | CellEvaluator.cpp:166-176 | a joined list holds an error exactly when one of its parts does |
| FormulaLibrary.JoinStringsEmpty | CellEvaluator.cpp:350-380 | joining non-empty texts gives the empty text only for no texts |
| FormulaLibrary.JoinWithoutDelimiter | CellEvaluator.cpp:350-380 | joining with the empty delimiter is concatenation |
| FormulaLibrary.IntegerTextOfDecimal | CellEvaluator.cpp:8-22 | the decimal text of any integer is integer text and reads back as that integer |
| FormulaLibrary.NumericValueOfText | CellEvaluator.cpp:25-50 | a number shown as text keeps its numeric value |
| Resolver.RangeCells | CellEvaluator.cpp:208-237 | a range covers height × width cells, at least one |
| Resolver.CellsResolution | CellEvaluator.cpp:222-235 | the expanded values, when all resolve, are one per cell |
| Resolver.Resolution | CellEvaluator.cpp:89-128 | `resolve`: a literal is itself, a reference to an empty cell is `#REF!`, a reference to a stored cell is that cell's resolution, a formula is `evaluateFormula`; none when the chain of stored cells outruns the fuel |
| Resolver.CellResolution | CellEvaluator.cpp:112-120 | the lookup of one address: a placeholder when the cell is empty (`#REF!` for a reference, "" inside `flattenArgs` and `expandRange`), else the stored value's resolution one fuel unit deeper |
| Resolver.FormulaResolution | CellEvaluator.cpp:131-163 | `evaluateFormula` with the eight `eval*` functions: each one's shape check gives `#VALUE!`, otherwise its arguments are resolved with `flattenArgs` or `expandRange` and its library function applied |
| Resolver.Evaluation | CellEvaluator.cpp:72-85 | `evaluate`: the display text of the resolved literal |
| Resolver.ParamValues | CellEvaluator.cpp:181-202 | a literal or a cell contributes one value, a range at least one |
| Resolver.Flattened | CellEvaluator.cpp:179-205 | flattening gives at least one value per parameter |
| ResolverProperties.RangeCellsIndex | CellEvaluator.cpp:217-224 | the k-th expanded cell is row min + k / width, column min + k mod width |
| ResolverProperties.RangeCellsAt | CellEvaluator.cpp:222-224 | cell (i, j) of the rectangle is the (i × width + j)-th expanded cell |
| ResolverProperties.RangeCellsCorners | CellEvaluator.cpp:217-220 | swapping the corners, or naming the other diagonal, expands to the same cells |
| ResolverProperties.RangeCellsInside | CellEvaluator.cpp:222-224 | every expanded cell lies inside the rectangle |
| ResolverProperties.RangeCellsCover | CellEvaluator.cpp:222-224 | every cell inside the rectangle is expanded |
| ResolverProperties.RangeCellsMembers | CellEvaluator.cpp:208-237 | a cell is expanded exactly when it lies inside the rectangle |
| ResolverProperties.CellsResolutionIff | CellEvaluator.cpp:222-235 | range values are exactly the per-cell values, in order |
| ResolverProperties.CellsResolutionNone | CellEvaluator.cpp:222-235 | a range diverges exactly when one of its cells does |
| ResolverProperties.CellsResolutionSnoc | CellEvaluator.cpp:222-235 | one more cell appends its value |
| ResolverProperties.ExpandStep | CellEvaluator.cpp:224-233 | one step of the expansion loop appends the cell's value, or diverges |
| ResolverProperties.ExpandedRange | CellEvaluator.cpp:208-237 | an expanded range gives "" for empty cells and the stored cell's resolution for stored cells |
| ResolverProperties.Spliced | CellEvaluator.cpp:199-200 | splicing succeeds exactly when both parts do and concatenates them |
| ResolverProperties.SplicedAssociative | CellEvaluator.cpp:179-205 | splicing is associative |
| ResolverProperties.FlattenedSnoc | CellEvaluator.cpp:181-203 | one more parameter appends its values |
| ResolverProperties.FlattenedAppend | CellEvaluator.cpp:179-205 | flattening two parameter lists splices their results |
| ResolverProperties.FlattenedCons | CellEvaluator.cpp:179-205 | flattening from the front splices the first parameter's values |
| ResolverProperties.ResolutionMonotone | CellEvaluator.cpp:89-128 | once `resolve` reaches a value, more fuel gives the same value |
| ResolverProperties.CellMonotone | CellEvaluator.cpp:187-196 | the same for one cell's value |
| ResolverProperties.CellsMonotone | CellEvaluator.cpp:208-237 | the same for a range |
| ResolverProperties.ParamMonotone | CellEvaluator.cpp:182-202 | the same for one parameter |
| ResolverProperties.FlattenedMonotone | CellEvaluator.cpp:179-205 | the same for a parameter list |
| ResolverProperties.FormulaMonotone | CellEvaluator.cpp:131-163 | the same for a formula |
| ResolverProperties.EvaluationMonotone | CellEvaluator.cpp:72-86 | the same for the displayed text |
| ResolverProperties.ReferenceResolution | CellEvaluator.cpp:112-121 | a reference to an empty cell is `#REF!`; otherwise it resolves the target's value |
| ResolverProperties.CycleDiverges | CellEvaluator.cpp:112-121 | a cell on a reference cycle never resolves, for any fuel |
| ResolverProperties.SelfReferenceDiverges | CellEvaluator.cpp:112-121 | a cell referring to itself never resolves |
| ResolverProperties.FormulaPoisoned | CellEvaluator.cpp:241-461 | any formula whose arguments hold an error yields `#VALUE!` |
| ResolverProperties.FlattenedPoisoned | CellEvaluator.cpp:241-348 | the same for the formulas that flatten their arguments |
| ResolverProperties.RangePoisoned | CellEvaluator.cpp:350-461 | the same for the formulas that read a leading range |
| ResolverProperties.SumFormula | CellEvaluator.cpp:241-265 | SUM is the sum of its flattened arguments |
| ResolverProperties.SumOfSplicedArguments | CellEvaluator.cpp:241-265 | SUM over two parameter lists adds their sums |
| ResolverProperties.SumArguments | CellEvaluator.cpp:241-265 | a resolved SUM is the sum of some flattened argument list |
| ResolverProperties.CountAtMostCells | CellEvaluator.cpp:438-461 | COUNT over a range is an error or at most the number of its cells |
| ResolverProperties.ReferenceExample | CellEvaluator.cpp:112-121 | a cell referring to a cell holding 5 shows "5" |
| ResolverProperties.SumSkipExample | CellEvaluator.cpp:241-265 | SUM over 1, an empty cell and "x" is 1 |
| ResolverProperties.SumAllEmptyExample | CellEvaluator.cpp:241-265 | SUM over two empty cells and "x" is `#VALUE!` |
| ResolverProperties.SumOverRowExample | CellEvaluator.cpp:241-265 | SUM over three cells of a row sums their three values |
| ResolverProperties.SumOfRange | CellEvaluator.cpp:241-265 | SUM over one range is the sum of its expanded values |
| ResolverProperties.SubstrOfLiterals | CellEvaluator.cpp:382-421 | SUBSTR over three literals evaluates those literals |
| ResolverProperties.SubstrValues | CellEvaluator.cpp:382-421 | SUBSTR("hello",1,5) is "hello"; start 6 and start 0 are `#VALUE!` |
| ResolverProperties.SubstrExample | CellEvaluator.cpp:382-421 | the same three cases through formula evaluation |
| ResolverProperties.DanglingRange | CellEvaluator.cpp:208-237 | a range cell that refers to an empty cell contributes `#REF!` |
| ResolverProperties.DanglingReference | CellEvaluator.cpp:116-118 | a reference to an empty cell resolves to `#REF!` |
| ResolverProperties.DanglingDisplay | CellEvaluator.cpp:72-86 | such a cell displays `#REF!` |
| ResolverProperties.PropagationExample | CellEvaluator.cpp:241-265 | SUM over a cell that shows `#REF!` is `#VALUE!` |
| ResolverProperties.CountedValues | CellEvaluator.cpp:452-458 | COUNT of 7, TRUE, "" and "x" is 2 |
| ResolverProperties.CountOfRange | CellEvaluator.cpp:438-461 | COUNT over a range counts its expanded values |
| ResolverProperties.CountExample | CellEvaluator.cpp:438-461 | COUNT over 7, TRUE, an empty cell and "x" is 2 |
| CellEvaluation.CellEvaluator.constructor | CellEvaluator.cpp:67-69 | the evaluator reads the given model |
| CellEvaluation.CellEvaluator.Evaluate | CellEvaluator.cpp:72-86 | `evaluate` is the text of the resolution |
| CellEvaluation.CellEvaluator.Resolve | CellEvaluator.cpp:89-128 | `resolve` computes the resolution function |
| CellEvaluation.CellEvaluator.EvaluateFormula | CellEvaluator.cpp:131-163 | the dispatch computes the formula resolution function |
| CellEvaluation.CellEvaluator.CellValueOf | CellEvaluator.cpp:187-196 | a cell argument resolves the stored value, or "" for an empty cell |
| CellEvaluation.CellEvaluator.FlattenArgs | CellEvaluator.cpp:179-205 | the flattening loop computes the flattened argument list |
| CellEvaluation.CellEvaluator.ExpandRange | CellEvaluator.cpp:208-237 | the double loop resolves exactly the range's cells, row by row |
| CellEvaluation.CellEvaluator.RangeArgument | CellEvaluator.cpp:352-356 | a leading range argument expands to its cells' values |
| CellEvaluation.CellEvaluator.EvalSum | CellEvaluator.cpp:241-265 | `evalSUM` computes SUM |
| CellEvaluation.CellEvaluator.EvalAverage | CellEvaluator.cpp:267-292 | `evalAVERAGE` computes AVERAGE |
| CellEvaluation.CellEvaluator.EvalMin | CellEvaluator.cpp:294-320 | `evalMIN` computes MIN |
| CellEvaluation.CellEvaluator.EvalMax | CellEvaluator.cpp:322-348 | `evalMAX` computes MAX |
| CellEvaluation.CellEvaluator.EvalConcat | CellEvaluator.cpp:350-380 | `evalCONCAT` computes CONCAT |
| CellEvaluation.CellEvaluator.EvalSubstr | CellEvaluator.cpp:382-421 | `evalSUBSTR` computes SUBSTR |
| CellEvaluation.CellEvaluator.EvalLen | CellEvaluator.cpp:423-436 | `evalLEN` computes LEN |
| CellEvaluation.CellEvaluator.EvalCount | CellEvaluator.cpp:438-461 | `evalCOUNT` computes COUNT |
| CellEvaluation.SumValues | CellEvaluator.cpp:250-264 | the summing loop yields the SUM of the values |
| CellEvaluation.AverageValues | CellEvaluator.cpp:276-291 | the averaging loop yields the AVERAGE of the values |
| CellEvaluation.MinValues | CellEvaluator.cpp:305-319 | the minimum loop yields the MIN of the values |
| CellEvaluation.MaxValues | CellEvaluator.cpp:333-347 | the maximum loop yields the MAX of the values |
| CellEvaluation.ConcatValues | CellEvaluator.cpp:361-379 | the joining loop yields the CONCAT of the values |
| CellEvaluation.CountValues | CellEvaluator.cpp:449-460 | the counting loop yields the COUNT of the values |
| TableModels.TableModel.constructor | TableModel.h:7-18 | a new store is empty |
| TableModels.TableModel.SetCellValue | TableModel.cpp:3-5 | the address now holds the value; no other address changes |
| TableModels.TableModel.RemoveCellValue | TableModel.cpp:7-9 | the address becomes empty; no other address changes; removing an absent address changes nothing |
| TableModels.TableModel.GetCellValue | TableModel.cpp:11-17 | a value is returned exactly for stored addresses, and it is the stored value |
| TableModels.DisplayableTableModel.constructor | DisplayableTableModel.h:7-18 | a new cache is empty |
| TableModels.DisplayableTableModel.SetDisplayValue | DisplayableTableModel.cpp:3-5 | the address now shows the text; no other address changes |
| TableModels.DisplayableTableModel.RemoveDisplayValue | DisplayableTableModel.cpp:7-9 | the address no longer shows text; no other address changes |
| TableModels.DisplayableTableModel.GetDisplayValue | DisplayableTableModel.cpp:11-17 | text is returned exactly for cached addresses, and it is the cached text |
| ViewModel.AppliedEffect | TableViewModel.cpp:9-27 | an event changes only its target: insert, reference and formula store their value there; delete removes it |
| ViewModel.Displays | TableViewModel.cpp:49-56 | the cache the store calls for has exactly the stored addresses |
| ViewModel.DisplaysFuelIndependent | CellEvaluator.cpp:72-86 | the cache does not depend on which sufficient fuel computes it |
| ViewModel.RefreshOverwrites | TableViewModel.cpp:14-17 | after a deletion has removed the target's text, re-displaying every stored cell leaves no stale entry |
| ViewModel.ShownStep | TableViewModel.cpp:53-55 | one loop step adds the address's text to the cache |
| ViewModel.TableViewModel.constructor | TableViewModel.cpp:3-6 | a new view model keeps the store and configuration, and its cache is exactly the evaluation of the store |
| ViewModel.TableViewModel.Handle | TableViewModel.cpp:9-27 | the store becomes the event applied to it, and the cache is again exactly its evaluation |
| ViewModel.TableViewModel.UpdateDisplayableCell | TableViewModel.cpp:41-47 | a stored address gets its evaluated text; an absent one changes nothing |
| ViewModel.TableViewModel.UpdateAllDisplayableCells | TableViewModel.cpp:49-56 | every stored address gets its evaluated text; other entries stay |
| TableParser.LiteralRoundTrip | TableParser.cpp:62-94 | every literal reads back from its serialised text |
| TableParser.LiteralRejects | TableParser.cpp:84-93 | a "bool:" text other than true or false, and an unknown prefix, are rejected |
| TableParser.AddressText | CellAddress.cpp:34-36 | address text holds only letters and digits, so no codec separator |
| TableParser.ParamRoundTrip | TableParser.cpp:98-139 | every parameter whose addresses fit reads back from its text |
| TableParser.LiteralParamRoundTrip | TableParser.cpp:98-139 | the same for literal parameters |
| TableParser.CellParamRoundTrip | TableParser.cpp:98-139 | the same for cell parameters |
| TableParser.RangeParamRoundTrip | TableParser.cpp:98-139 | the same for range parameters |
| TableParser.CornersRoundTrip | TableParser.cpp:125-137 | the two corner texts of a range read back as the range |
| TableParser.DeserializeRange | TableParser.cpp:125-137 | a "range:" text splits at its first '-' into the two corners |
| TableParser.UnknownParamPrefix | TableParser.cpp:111-139 | a parameter text with no known prefix is rejected |
| TableParser.ParseFormulaType | TableParser.cpp:174-183 | a recognised name is the name of the type it gives |
| TableParser.FormulaTypeRoundTrip | TableParser.cpp:152-183 | every type reads back from its name; a name is rejected exactly when no type has it |
| TableParser.SerializedParams | TableParser.cpp:145-150 | one text per parameter, each its serialisation |
| TableParser.DeserializeParamsIff | TableParser.cpp:185-195 | the token list is rejected exactly when some token is; otherwise each parameter is its token's |
| TableParser.TransportableParams | TableParser.cpp:98-109 | only string literals with ',' or ')' break the formula text |
| TableParser.DeserializeSerialized | TableParser.cpp:143-200 | the serialised parameter texts read back as the parameters |
| TableParser.FormulaRoundTrip | TableParser.cpp:143-200 | a formula whose strings avoid ',' and ')' reads back from its text |
| TableParser.FormulaCut | TableParser.cpp:165-200 | the text after "formula:" is cut at its first '(' and its first ')' into name and parameter text |
| TableParser.ParseFormulaRejects | TableParser.cpp:174-195 | an unknown name, or any bad parameter token, rejects the formula |
| TableParser.SerializeFormulaValue | TableParser.cpp:143-163 | the serialising method yields the formula's text |
| TableParser.SerializeParamsText | TableParser.cpp:145-150 | the joining loop yields the comma-joined parameter texts |
| TableParser.DeserializeFormulaValue | TableParser.cpp:165-200 | the parsing method yields the formula parse |
| TableParser.DeserializeTokens | TableParser.cpp:185-195 | the getline loop yields the parsed token list, or the rejection |
| TableParser.CellRoundTrip | TableParser.cpp:204-237 | every cell value whose text format allows it reads back; an unknown prefix is rejected |
| TableParser.SerializeLiteral | TableParser.cpp:62-73 | `serializeLiteralValue`: "number:", "bool:" or "string:" followed by the payload |
| TableParser.DeserializeLiteral | TableParser.cpp:75-94 | `deserializeLiteralValue`: the three prefixes read back, a bool payload other than true or false and any other prefix rejected |
| TableParser.SerializeParam | TableParser.cpp:98-109 | `serializeFormulaParam`: "literal:", "cell:" or "range:" with the corner texts joined by '-' |
| TableParser.DeserializeParam | TableParser.cpp:111-139 | `deserializeFormulaParam`: one reader per prefix, none for an unknown prefix |
| TableParser.FormulaText | TableParser.cpp:143-163 | `serializeFormulaValue`: "formula:", the name, and the parameter texts between parentheses with ',' between them |
| TableParser.ParseFormula | TableParser.cpp:165-200 | `deserializeFormulaValue`: the name before the first '(', the parameter text up to the first ')', read with `getline` at every ',' |
| TableParser.SerializeCell | TableParser.cpp:204-215 | `serializeCellValue`: a literal's text, "reference:" with the address, or the formula text |
| TableParser.DeserializeCell | TableParser.cpp:217-237 | `deserializeCellValue`: dispatch on the literal, "reference:" and "formula:" prefixes, none otherwise |
| EventParser.CommandAddress | EventParser.cpp:11-34 | a command address is accepted exactly when `fromString` accepts it |
| EventParser.ClassifyPayload | EventParser.cpp:25-27 | TRUE and FALSE are booleans, digits are a number when they fit an `int`, and anything else is text |
| EventParser.ClassifyToken | EventParser.cpp:56-76 | digits give a number, TRUE and FALSE a boolean, and ranges, cells and plain text are told apart by their shape |
| EventParser.ParseFormulaParams | EventParser.cpp:49-77 | the token loop yields the classified parameters, or the first failure |
| EventParser.Parse | EventParser.cpp:7-81 | the parsing method behaves as the code is written |
| EventParser.DeleteCommand | EventParser.cpp:11-13 | `<addr> delete` is the delete event for that address |
| EventParser.ReferenceCommand | EventParser.cpp:16-18 | `<addr>=<addr>` is the reference event |
| EventParser.InsertCommand | EventParser.cpp:21-30 | `<addr> insert <raw>` inserts the classified payload |
| EventParser.PayloadOfDisplay | EventParser.cpp:25-27 | the shown text of a literal classifies back to that literal |
| EventParser.FormulaCommandParses | EventParser.cpp:33-78 | as intended, `<addr>=NAME(params)` is the formula event with the parsed parameters; as written, it is "Could not parse input" |
| EventParser.UnknownFunctionCommand | EventParser.cpp:38-47 | an unknown function name is the "Unknown formula type" error |
| EventParser.AsWrittenNoFormula | EventParser.cpp:33-80 | as written, no input yields a formula event |
| EventParser.UnmatchedInput | EventParser.cpp:80 | input matching no pattern is "Could not parse input" |
| EventParser.NumberToken | EventParser.cpp:57-58 | a decimal token is that number |
| EventParser.CellToken | EventParser.cpp:70-72 | an address token is a cell parameter |
| EventParser.RangeToken | EventParser.cpp:63-68 | `<addr>:<addr>` is a range parameter |
| EventParser.FormulaExample | EventParser.cpp:33-80 | "B2=SUM(A1:A3, 5)" is intended as SUM over A1:A3 and 5, but as written it fails |
| EventParser.NoDeleteWithoutSpace | EventParser.cpp:11-13 | a command without a space is never a delete |
| EventParser.ParseAsWritten | EventParser.cpp:7-81 | `parse` as written: delete, reference and insert commands in that order, and the formula branch falling through to "Could not parse input" |
| EventParser.ParseEvent | EventParser.cpp:7-81 | `parse` as intended: the same branches, with the formula branch returning its event |
| Configuration.KnownNamesAreRequired | TableConfigurationParser.cpp:24-33 | the names `validateAndSet` knows are exactly the required names |
| Configuration.PositiveInteger | TableConfigurationParser.cpp:122-128 | true exactly for digit text whose value is 1 to 2147483647; larger values are the `stoi` overflow |
| Configuration.IsPositiveInteger | TableConfigurationParser.cpp:122-128 | the digit scan returns exactly that outcome |
| Configuration.ParseAlignment | TableConfigurationParser.cpp:114-120 | an accepted value is the alignment's name; otherwise the "Invalid value" message |
| Configuration.AlignmentRoundTrip | TableConfigurationParser.cpp:114-120 | every alignment reads back from its name, and only left, center and right are accepted |
| Configuration.PropertiesDetermine | TableConfiguration.h:9-18 | two configurations agreeing on every property are equal |
| Configuration.SettingOf | TableConfigurationParser.cpp:62-107 | an accepted value fits its property's kind |
| Configuration.CountSetting | TableConfigurationParser.cpp:63-98 | a count property accepts exactly positive integers that fit an `int` |
| Configuration.FlagSetting | TableConfigurationParser.cpp:87-107 | a flag property accepts exactly "true" and "false" |
| Configuration.AlignmentSetting | TableConfigurationParser.cpp:99-101 | initialAlignment accepts exactly left, center and right |
| Configuration.SetPropertyFrame | TableConfigurationParser.cpp:62-112 | an unknown name changes nothing; a known one sets only its property, or fails with its message |
| Configuration.WithSettingFrame | TableConfigurationParser.cpp:62-107 | setting one property leaves the others unchanged |
| Configuration.SplitLine | TableConfigurationParser.cpp:38-44 | a line splits at its first ':' into name and value, and has no split exactly when there is no ':' |
| Configuration.FirstMissing | TableConfigurationParser.cpp:55-59 | the first required name, in map order, that was not seen |
| Configuration.ParseComplete | TableConfigurationParser.cpp:17-60 | parsing succeeds exactly when every line is accepted and every required name appears |
| Configuration.ParseSkipsEmpty | TableConfigurationParser.cpp:36 | an empty line changes nothing |
| Configuration.ParseBadLine | TableConfigurationParser.cpp:38-41 | a line with no ':' is the "Invalid format" error |
| Configuration.ParseUnknown | TableConfigurationParser.cpp:108-111 | a line with an unknown name changes nothing |
| Configuration.LastLineWins | TableConfigurationParser.cpp:35-52 | each property holds the value of its last line, or keeps its value |
| Configuration.LinesFoldErrPrefix | TableConfigurationParser.cpp:35-52 | the first failing line's error ends the parse |
| Configuration.TableConfigurationParser.constructor | TableConfigurationParser.cpp:9-11 | the parser starts from the given configuration |
| Configuration.TableConfigurationParser.ValidateAndSet | TableConfigurationParser.cpp:62-112 | sets the named property, or reports its error and leaves the configuration unchanged |
| Configuration.TableConfigurationParser.ParseLines | TableConfigurationParser.cpp:17-60 | reports exactly the parse's error, or stores the parsed configuration |
| Configuration.TableConfigurationParser.ApplyLines | TableConfigurationParser.cpp:35-52 | the line loop applies every line and marks every known name seen |
| Configuration.FirstUnset | TableConfigurationParser.cpp:55-59 | the missing-property loop finds the first unmarked required name |
| Configuration.FirstMissingAt | TableConfigurationParser.cpp:55-59 | the first unseen name is the one reported |
| Configuration.SetProperty | TableConfigurationParser.cpp:62-112 | `validateAndSet` on a configuration value: an unknown name changes nothing, a known one sets its property or fails with its message |
| Configuration.Parse | TableConfigurationParser.cpp:17-60 | `parseFile` on the file's lines: every line applied in order, the first error ending the parse, then the first missing required name reported |
| TableView.GetRowLabel | TableView.cpp:186-197 | the row header is the row's letter label |
| TableView.Spaces | TableView.cpp:161-179 | padding of n spaces, none for n ≤ 0 |
| TableView.Truncated | TableView.cpp:151-155 | over-long content is cut to the available width, otherwise kept |
| TableView.FormatCellContent | TableView.cpp:148-184 | the formatting method yields the formatted cell |
| TableView.WriteAligned | TableView.cpp:161-179 | the alignment branch pads the content on the correct side |
| TableView.AppendSpaces | TableView.cpp:171-173 | the padding loop appends that many spaces |
| TableView.FormattedWidth | TableView.cpp:148-184 | a cell of width w ≥ 2 is exactly w characters and framed by spaces |
| TableView.FormattedContent | TableView.cpp:148-184 | the (possibly cut) content appears inside the frame at the alignment's offset |
| TableView.LongContentCut | TableView.cpp:151-155 | over-long content is cut to w − 2 characters |
| TableView.CenterPadding | TableView.cpp:165-174 | centred content has half the padding on the left, rounded down |
| TableView.SidePadding | TableView.cpp:161-179 | left and right alignment put all padding on the other side |
| TableView.NarrowCell | TableView.cpp:148-184 | a width below 2 shows the content framed by single spaces |
| TableView.VisibleRows | TableView.cpp:207-221 | the visible row count is the initial, the maximum or the actual count |
| TableView.VisibleRowsClamp | TableView.cpp:207-221 | the count is clamped between initial and maximum, is the actual count exactly when that lies between them, and clamping twice changes nothing |
| TableView.VisibleColsAsWritten | TableView.cpp:223-237 | as written, the visible column count is built from the row settings |
| TableView.VisibleCols | TableView.cpp:223-237 | as intended, it is built from the column settings |
| TableView.VisibleColsClamp | TableView.cpp:223-237 | the intended column count is clamped between the column settings |
| TableView.VisibleColsUsesRows | TableView.cpp:225-226 | with 10/50 rows and 5/26 columns, an empty table shows 10 columns as written, instead of 5 |
| TableView.VisibleColsAsWrittenIsRows | TableView.cpp:223-237 | the as-written count equals the row count, and differs from the intended one whenever the initial settings differ |
| TableView.ContentWidth | TableView.cpp:121-136 | the widest content among the visible rows, at least 3 |
| TableView.CalculateColumnWidths | TableView.cpp:116-146 | as written, one width per column of the as-written `getVisibleCols` count (the row settings), each the column's width rule |
| TableView.CalculateColumnWidthsCorrected | TableView.cpp:116-146 | with the corrected column count, one width per column of the column settings, each the column's width rule |
| TableView.ColumnWidths | TableView.cpp:119-145 | the two loops fill a vector of exactly the given number of columns, each entry the column's width rule over the given rows |
| TableView.FixedColumnWidth | TableView.cpp:137-143 | without auto-fit, every column is visibleCellSymbols + 2 wide |
| TableView.AutoFitColumnWidth | TableView.cpp:121-136 | with auto-fit, a column is its widest content + 2, and at least 5 |
| TableView.AutoFitNoCut | TableView.cpp:121-184 | with auto-fit, no visible content is ever cut |

## Left out

- **I/O.** File and console input and output are not modelled:
  - `TableParser::save` and `load` (TableParser.cpp:10-58); the line codecs they call are modelled;
  - the file opening in `parseFile`, which the model replaces with its sequence of lines;
  - the drawing and console functions of `TableView` (`redraw`, `drawTable`, `drawHeader`, `drawRow`, `drawSeparatorLine`, `clearConsole`);
  - the main loop in Excel.cpp.
- **Floating point.**
  - A stored number is a mathematical integer. The whole-number conversion of `double` values in `resolve` (CellEvaluator.cpp:97-104) is therefore the identity.
  - `std::stod` on text is read as optionally signed integer text.
  - FormulaLibrary.NumericValue: because `getNumericValue` (CellEvaluator.cpp:34-46) is read that way, a text with a fraction is not a number in the model. In particular the AVERAGE text "4.000000" is a number to SUM, AVERAGE, MIN, MAX and COUNT in the C++ code but not in the model. So a formula over a cell holding an AVERAGE formula gives `#VALUE!` or a lower count in the model where the code gives a number.
  - TableParser.DeserializeLiteral: `deserializeLiteralValue` (TableParser.cpp:78) calls `stod` without checking how much of the text it read. The C++ code loads "number:12abc" as 12 and "number: 7" as 7. The model accepts only integer text after "number:" and rejects both.
  - The number codec writes and reads the integer's decimal form, not `std::to_string(double)`.
  - `FormulaLibrary.AverageTextWhole`: the AVERAGE text is the exact quotient rounded to six decimals. This is the intended reading of `std::to_string(double)` and does not model binary rounding of the `double`.
- **Integer overflow.**
  - `FormulaLibrary.SumOfAppend`: sums and averages are unbounded. The `static_cast<int>` of a sum that exceeds 32 bits is not modelled.
  - FormulaLibrary.MinOf and FormulaLibrary.MaxOf: `evalMIN` and `evalMAX` end with `static_cast<int>` of the least or greatest numeric value (CellEvaluator.cpp:319, 347). The model returns that value as an unbounded integer. A numeric text outside 32 bits, such as `-99999999999` stored as a string, reaches the cast in the C++ code, where the result is undefined; the model gives the exact value.
  - String lengths are unbounded.
  - Address columns are `nat`. An address whose column + 1 exceeds 2147483647 cannot be written and read back, and the round-trip lemmas require the column to fit.
  - Addresses.RowIndex and Addresses.ParseRow: `parseRow` accumulates the letters' value in an `int` (CellAddress.cpp:45-55). From seven letters on that value can exceed 2147483647, which is undefined behaviour in C++. The model accumulates in an unbounded integer.
  - Addresses.RowLabel and Addresses.RowToString: the `++row` of `rowToString` (CellAddress.cpp:59) overflows for row 2147483647. The model labels every `nat` row.
  - Addresses.ParseAddressIff, Addresses.ParseToString, Addresses.RowIndexOfRowLabel and Addresses.RowLabelOfRowIndex: because of the two lines above, these hold for every row, including rows whose label the source cannot build or read within an `int`.
- **Exceptions.**
  - The source's thrown exceptions are `Result` or `Option` values carrying the message.
  - The catch handlers of `evaluate` and `evaluateFormula` (CellEvaluator.cpp:77-84, 154-162) are not modelled. Nothing inside them throws in the model: `getNumericValue` catches the failure of `std::stod` itself, and `evalSUBSTR` checks its bounds before `substr`. So the model never produces their `#ERROR!` texts. A stack overflow from a cycle is not one of the exceptions they catch; it is `None`.
  - The `default: #NAME?` branch of `evaluateFormula` cannot be reached from the enumeration, so it is not modelled.
- **Recursion.** Unbounded recursion is modelled by fuel. `None` stands for the source's stack overflow. `TableViewModel` is verified only for stores that evaluate within its fuel, since the source does not return otherwise.
- **Aliasing.** `TableViewModel` holds its store and its cache by value in the source. In the model they are separate objects, so no aliasing between them is captured.
- **Configuration after failure.** `TableConfigurationParser.ParseLines` does not state the configuration after a failed parse. The source leaves it partly updated, and its caller aborts.
- **Regular expressions.** The `std::regex` patterns of `EventParser` are hand-written matchers for exactly those patterns.
- **`fromString` failures.** The `out_of_range` thrown by `std::stoi` in `fromString`, and its `invalid_argument`, are both folded into `None`.
- **COUNT.** The comment at CellEvaluator.cpp:451 says COUNT counts non-empty strings. The code at CellEvaluator.cpp:452-458 also excludes strings that are not numbers, so it counts only numbers, booleans and number texts. The model follows the code.
- **Row and column counts.** `getRowCount` and `getColumnCount`, which `getVisibleRows` and `getVisibleCols` call, are not defined in the repository, so the counts are parameters.
- **Other classes.** The draft classes `CellBool`, `CellNumber`, `CellReference`, `CellText` and `Table` are not used by the core and are not part of this model.
- **Hashing.** The `std::hash` specialisation of `CellAddress` (CellAddress.h:16-23) is replaced by Dafny's map equality.
- **Evaluation by value.** `CellEvaluation.CellEvaluator.Evaluate` gives the text of a value. The model evaluates a stored value itself, not a copy of it.

## Findings

| source | as written | input that shows it | evidently intended | confidence | as-written member | corrected member |
|---|---|---|---|---|---|---|
| EventParser.cpp:33-80 | the formula branch builds the parameters but never returns the event, so control falls through to the "Could not parse input" throw | `B2=SUM(A1:A3, 5)` | return `FormulaEvent{address, type, parsedParams}` after the token loop | high, not executed | EventParser.FormulaExample | EventParser.FormulaCommandParses |
| TableView.cpp:223-237 | `getVisibleCols` reads `initialTableRows` and `maxTableRows` | initial rows 10, max rows 50, initial columns 5, max columns 26, and an empty table: 10 columns are shown instead of 5 | clamp the column count with `initialTableCols` and `maxTableCols` | high, not executed | TableView.VisibleColsUsesRows | TableView.VisibleColsClamp |

Details:

- **Formula branch.**
  - `EventParser.ParseAsWritten` and the method `EventParser.Parse` model the parser as written. `EventParser.AsWrittenNoFormula` proves that it never yields a formula event.
  - `EventParser.ParseEvent` is the corrected parser. `EventParser.FormulaCommandParses` proves that it yields the formula event for every well-formed formula command, and `EventParser.FormulaExample` evaluates both versions on the example.
- **Visible columns.**
  - `TableView.VisibleColsAsWritten` is the column count as written.
  - `TableView.VisibleCols` is the corrected count.
  - `TableView.CalculateColumnWidths` models `calculateColumnWidths` as written, with the as-written count. `TableView.CalculateColumnWidthsCorrected` uses the corrected count. Both fill their vector with `TableView.ColumnWidths`.
