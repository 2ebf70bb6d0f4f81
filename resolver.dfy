/** The resolution half of CellEvaluator.cpp as functions: resolve, evaluateFormula,
    flattenArgs and expandRange over a cell store.

    The source follows references with no cycle guard, so a cell that refers to itself
    recurses until the stack is exhausted. Here every lookup of a stored cell spends one
    unit of fuel, and None means that the resolution needs more nested lookups than the
    fuel allows (which is what every cyclic entry needs). ResolutionMonotone shows that the
    fuel only bounds the depth: a result, once reached, is the same for every larger fuel. */
module Resolver {
  import opened Wrappers
  import opened Addresses
  import opened Formulas
  import opened FormulaLibrary

  /** TableModel's cell map. */
  type Store = map<CellAddress, CellValue>

  function MinNat(a: nat, b: nat): nat { if a <= b then a else b }

  function MaxNat(a: nat, b: nat): nat { if a <= b then b else a }

  /** The w addresses of row r from column c0, left to right. */
  function RowCells(r: nat, c0: nat, w: nat): (cells: seq<CellAddress>)
    ensures |cells| == w
  {
    if w == 0 then [] else RowCells(r, c0, w - 1) + [CellAddress(r, c0 + w - 1)]
  }

  /** The h rows from r0, each of the w columns from c0: row-major order. */
  function Rect(r0: nat, h: nat, c0: nat, w: nat): (cells: seq<CellAddress>)
    ensures |cells| == h * w
  {
    if h == 0 then []
    else
      assert (h - 1) * w + w == h * w;
      Rect(r0, h - 1, c0, w) + RowCells(r0 + h - 1, c0, w)
  }

  function Height(range: AddressRange): (h: nat)
    ensures h >= 1
  {
    MaxNat(range.start.row, range.end.row) - MinNat(range.start.row, range.end.row) + 1
  }

  function Width(range: AddressRange): (w: nat)
    ensures w >= 1
  {
    MaxNat(range.start.column, range.end.column) - MinNat(range.start.column, range.end.column) + 1
  }

  /** The addresses expandRange visits: rows from the smaller row to the larger, and in
      each row the columns from the smaller column to the larger. */
  function RangeCells(range: AddressRange): (cells: seq<CellAddress>)
    ensures |cells| == Height(range) * Width(range) >= 1
  {
    var h, w := Height(range), Width(range);
    assert h * w >= 1 by {
      assert h * w == (h - 1) * w + w;
    }
    Rect(MinNat(range.start.row, range.end.row), h, MinNat(range.start.column, range.end.column), w)
  }

  // ---------------------------------------------------------------------------------
  // resolve, the lookups inside flattenArgs / expandRange, and evaluateFormula.

  /** resolve: a literal is its own value, a reference takes the resolution of the cell it
      names ("#REF!" when that cell holds nothing), a formula is evaluated. */
  function Resolution(store: Store, v: CellValue, fuel: nat): Option<Literal>
    decreases fuel, 5, 0
  {
    match v
    case Lit(l) => Some(l)
    case Ref(a) => CellResolution(store, a, fuel, Str(RefError))
    case Formula(f) => FormulaResolution(store, f, fuel)
  }

  /** The value at address a: `absent` when a holds nothing, else the resolution of what a
      holds, one unit of fuel deeper. */
  function CellResolution(store: Store, a: CellAddress, fuel: nat, absent: Literal): Option<Literal>
    decreases fuel, 0, 0
  {
    if a !in store then Some(absent)
    else if fuel == 0 then None
    else Resolution(store, store[a], fuel - 1)
  }

  /** The values of a sequence of cells, a missing cell standing for "". */
  function CellsResolution(store: Store, cells: seq<CellAddress>, fuel: nat): (r: Option<seq<Literal>>)
    ensures r.Some? ==> |r.value| == |cells|
    decreases fuel, 1, |cells|
  {
    if cells == [] then Some([])
    else
      match CellsResolution(store, cells[..|cells| - 1], fuel)
      case None => None
      case Some(init) =>
        match CellResolution(store, cells[|cells| - 1], fuel, Str(""))
        case None => None
        case Some(x) => Some(init + [x])
  }

  /** What one parameter contributes to flattenArgs: a literal itself, an address its
      value ("" when empty), a range its expansion. */
  function ParamValues(store: Store, p: FormulaParam, fuel: nat): (r: Option<seq<Literal>>)
    ensures r.Some? ==> |r.value| >= 1 && (!p.RangeParam? ==> |r.value| == 1)
    decreases fuel, 2, 0
  {
    match p
    case LitParam(l) => Some([l])
    case CellParam(a) =>
      (match CellResolution(store, a, fuel, Str(""))
       case None => None
       case Some(x) => Some([x]))
    case RangeParam(range) => CellsResolution(store, RangeCells(range), fuel)
  }

  /** flattenArgs: the parameters' values spliced together in order. */
  function Flattened(store: Store, ps: seq<FormulaParam>, fuel: nat): (r: Option<seq<Literal>>)
    ensures r.Some? ==> |r.value| >= |ps|
    decreases fuel, 3, |ps|
  {
    if ps == [] then Some([])
    else
      match Flattened(store, ps[..|ps| - 1], fuel)
      case None => None
      case Some(init) =>
        match ParamValues(store, ps[|ps| - 1], fuel)
        case None => None
        case Some(vs) => Some(init + vs)
  }

  /** The shape MIN, MAX and COUNT demand: exactly one parameter, a range. */
  predicate SingleRange(ps: seq<FormulaParam>)
  {
    |ps| == 1 && ps[0].RangeParam?
  }

  /** The shape CONCAT demands: a range, then a literal delimiter. */
  predicate RangeAndLiteral(ps: seq<FormulaParam>)
  {
    |ps| == 2 && ps[0].RangeParam? && ps[1].LitParam?
  }

  /** evaluateFormula with the eight eval functions: each checks the shape of its
      parameters, resolves them (flattenArgs or expandRange) and computes its result; a
      wrong shape is "#VALUE!". */
  function FormulaResolution(store: Store, f: FormulaValue, fuel: nat): Option<Literal>
    decreases fuel, 4, 0
  {
    var ps := f.parameters;
    match f.ftype
    case SUM =>
      (match Flattened(store, ps, fuel)
       case None => None
       case Some(vals) => Some(SumOf(vals)))
    case AVERAGE =>
      (match Flattened(store, ps, fuel)
       case None => None
       case Some(vals) => Some(AverageOf(vals)))
    case MIN =>
      if !SingleRange(ps) then Some(Str(ValueError))
      else
        (match CellsResolution(store, RangeCells(ps[0].range), fuel)
         case None => None
         case Some(vals) => Some(MinOf(vals)))
    case MAX =>
      if !SingleRange(ps) then Some(Str(ValueError))
      else
        (match CellsResolution(store, RangeCells(ps[0].range), fuel)
         case None => None
         case Some(vals) => Some(MaxOf(vals)))
    case CONCAT =>
      if !RangeAndLiteral(ps) then Some(Str(ValueError))
      else
        (match CellsResolution(store, RangeCells(ps[0].range), fuel)
         case None => None
         case Some(vals) => Some(ConcatOf(vals, StringValue(ps[1].literal))))
    case SUBSTR =>
      if |ps| != 3 || ps[0].RangeParam? then Some(Str(ValueError))
      else
        (match Flattened(store, ps, fuel)
         case None => None
         case Some(vals) => Some(SubstrOf(vals)))
    case LEN =>
      if |ps| != 1 || ps[0].RangeParam? then Some(Str(ValueError))
      else
        (match Flattened(store, ps, fuel)
         case None => None
         case Some(vals) => Some(LenOf(vals)))
    case COUNT =>
      if !SingleRange(ps) then Some(Str(ValueError))
      else
        (match CellsResolution(store, RangeCells(ps[0].range), fuel)
         case None => None
         case Some(vals) => Some(CountOf(vals)))
  }

  /** evaluate: the display text of the resolved literal. */
  function Evaluation(store: Store, v: CellValue, fuel: nat): Option<string>
  {
    match Resolution(store, v, fuel)
    case None => None
    case Some(l) => Some(LiteralToString(l))
  }
}
