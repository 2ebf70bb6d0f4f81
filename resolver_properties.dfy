/** Properties of the resolver: row-major range geometry, what a range and a parameter
    list resolve to, that fuel only bounds the depth, that reference cycles never resolve,
    the poisoning rule at formula level, and the documented examples. */
module ResolverProperties {
  import opened Wrappers
  import opened Text
  import opened Addresses
  import opened Formulas
  import opened FormulaLibrary
  import opened Resolver

  // ---------------------------------------------------------------------------------
  // Range geometry.

  lemma {:induction false} RowCellsIndex(r: nat, c0: nat, w: nat, k: nat)
    requires k < w
    ensures RowCells(r, c0, w)[k] == CellAddress(r, c0 + k)
  {
    if k < w - 1 {
      RowCellsIndex(r, c0, w - 1, k);
    }
  }

  lemma {:induction false} RectIndex(r0: nat, h: nat, c0: nat, w: nat, k: nat)
    requires k < h * w
    ensures w > 0 && Rect(r0, h, c0, w)[k] == CellAddress(r0 + k / w, c0 + k % w)
  {
    RowOfIndex(k, h, w);
    assert h * w == (h - 1) * w + w;
    if k < (h - 1) * w {
      RectIndex(r0, h - 1, c0, w, k);
    } else {
      var j := k - (h - 1) * w;
      DivModUnique(k, h - 1, w);
      RowCellsIndex(r0 + h - 1, c0, w, j);
    }
  }

  /** expandRange visits position k of the rectangle at row minRow + k / width and column
      minCol + k % width: row-major order from the top-left corner. */
  lemma RangeCellsIndex(range: AddressRange, k: nat)
    requires k < |RangeCells(range)|
    ensures var w := Width(range);
      k / w >= 0 && k % w >= 0 &&
      RangeCells(range)[k] ==
        CellAddress(MinNat(range.start.row, range.end.row) + k / w,
                    MinNat(range.start.column, range.end.column) + k % w)
  {
    RectIndex(MinNat(range.start.row, range.end.row), Height(range),
              MinNat(range.start.column, range.end.column), Width(range), k);
  }

  /** Offset (i, j) from the top-left corner sits at position i * width + j. */
  lemma RangeCellsAt(range: AddressRange, i: nat, j: nat)
    requires i < Height(range) && j < Width(range)
    ensures i * Width(range) + j < |RangeCells(range)|
    ensures RangeCells(range)[i * Width(range) + j] ==
      CellAddress(MinNat(range.start.row, range.end.row) + i,
                  MinNat(range.start.column, range.end.column) + j)
  {
    RowMajorIndex(i, j, Height(range), Width(range));
    RangeCellsIndex(range, i * Width(range) + j);
  }

  /** Only the rectangle matters, not which corners name it or in which order. */
  lemma RangeCellsCorners(range: AddressRange)
    ensures RangeCells(AddressRange(range.end, range.start)) == RangeCells(range)
    ensures RangeCells(AddressRange(CellAddress(range.start.row, range.end.column),
                                    CellAddress(range.end.row, range.start.column)))
            == RangeCells(range)
  {
  }

  /** A rectangle as its two bounding corners test it. */
  predicate InRectangle(range: AddressRange, a: CellAddress)
  {
    && MinNat(range.start.row, range.end.row) <= a.row <= MaxNat(range.start.row, range.end.row)
    && MinNat(range.start.column, range.end.column) <= a.column <= MaxNat(range.start.column, range.end.column)
  }

  lemma RangeCellsInside(range: AddressRange, k: nat)
    requires k < |RangeCells(range)|
    ensures InRectangle(range, RangeCells(range)[k])
  {
    RangeCellsIndex(range, k);
    RowOfIndex(k, Height(range), Width(range));
  }

  lemma RangeCellsCover(range: AddressRange, a: CellAddress)
    requires InRectangle(range, a)
    ensures a in RangeCells(range)
  {
    var r0, c0 := MinNat(range.start.row, range.end.row), MinNat(range.start.column, range.end.column);
    var i: nat, j: nat := a.row - r0, a.column - c0;
    RowMajorIndex(i, j, Height(range), Width(range));
    RangeCellsIndex(range, i * Width(range) + j);
  }

  /** The range visits exactly the addresses inside its rectangle. */
  lemma RangeCellsMembers(range: AddressRange, a: CellAddress)
    ensures a in RangeCells(range) <==> InRectangle(range, a)
  {
    if a in RangeCells(range) {
      var k :| 0 <= k < |RangeCells(range)| && RangeCells(range)[k] == a;
      RangeCellsInside(range, k);
    }
    if InRectangle(range, a) {
      RangeCellsCover(range, a);
    }
  }

  // ---------------------------------------------------------------------------------
  // What a sequence of cells resolves to.

  /** The cells resolve to vs exactly when each cell resolves to the value at its
      position. */
  lemma CellsResolutionIff(store: Store, cells: seq<CellAddress>, fuel: nat, vs: seq<Literal>)
    ensures CellsResolution(store, cells, fuel) == Some(vs) <==>
      && |vs| == |cells|
      && forall k :: 0 <= k < |cells| ==> CellResolution(store, cells[k], fuel, Str("")) == Some(vs[k])
  {
    if CellsResolution(store, cells, fuel) == Some(vs) {
      ResolvedCells(store, cells, fuel, vs);
    }
    if |vs| == |cells| && forall k :: 0 <= k < |cells| ==> CellResolution(store, cells[k], fuel, Str("")) == Some(vs[k]) {
      CellsResolved(store, cells, fuel, vs);
    }
  }

  /** Each cell of a resolved sequence resolves to the value at its position. */
  lemma {:induction false} ResolvedCells(store: Store, cells: seq<CellAddress>, fuel: nat, vs: seq<Literal>)
    requires CellsResolution(store, cells, fuel) == Some(vs)
    ensures forall k :: 0 <= k < |cells| ==> CellResolution(store, cells[k], fuel, Str("")) == Some(vs[k])
  {
    if cells != [] {
      var n := |cells|;
      var init := cells[..n - 1];
      var vinit := CellsResolution(store, init, fuel).value;
      ResolvedCells(store, init, fuel, vinit);
      assert vs == vinit + [vs[n - 1]];
      forall k | 0 <= k < n - 1
        ensures CellResolution(store, cells[k], fuel, Str("")) == Some(vs[k])
      {
        assert init[k] == cells[k] && vinit[k] == vs[k];
      }
    }
  }

  /** Cells that each resolve make a sequence that resolves to their values. */
  lemma {:induction false} CellsResolved(store: Store, cells: seq<CellAddress>, fuel: nat, vs: seq<Literal>)
    requires |vs| == |cells|
    requires forall k :: 0 <= k < |cells| ==> CellResolution(store, cells[k], fuel, Str("")) == Some(vs[k])
    ensures CellsResolution(store, cells, fuel) == Some(vs)
  {
    if cells != [] {
      var n := |cells|;
      var init, vinit := cells[..n - 1], vs[..n - 1];
      forall k | 0 <= k < n - 1
        ensures CellResolution(store, init[k], fuel, Str("")) == Some(vinit[k])
      {
        assert init[k] == cells[k] && vinit[k] == vs[k];
      }
      CellsResolved(store, init, fuel, vinit);
      assert vs == vinit + [vs[n - 1]];
    }
  }

  /** The cells fail to resolve exactly when one of them does. */
  lemma CellsResolutionNone(store: Store, cells: seq<CellAddress>, fuel: nat)
    ensures CellsResolution(store, cells, fuel).None? <==>
      exists k :: 0 <= k < |cells| && CellResolution(store, cells[k], fuel, Str("")).None?
  {
    if CellsResolution(store, cells, fuel).Some? {
      CellsResolutionIff(store, cells, fuel, CellsResolution(store, cells, fuel).value);
    } else if forall k :: 0 <= k < |cells| ==> CellResolution(store, cells[k], fuel, Str("")).Some? {
      var vs := seq(|cells|, k requires 0 <= k < |cells| => CellResolution(store, cells[k], fuel, Str("")).value);
      CellsResolutionIff(store, cells, fuel, vs);
      assert false;
    }
  }

  /** One more cell extends the resolved values by that cell's value. */
  lemma CellsResolutionSnoc(store: Store, cells: seq<CellAddress>, a: CellAddress, fuel: nat)
    ensures CellsResolution(store, cells + [a], fuel) ==
      match CellsResolution(store, cells, fuel)
      case None => None
      case Some(vs) =>
        (match CellResolution(store, a, fuel, Str(""))
         case None => None
         case Some(x) => Some(vs + [x]))
  {
    assert (cells + [a])[..|cells|] == cells;
  }

  /** A prefix that fails to resolve makes the whole sequence fail. */
  lemma CellsResolutionPrefixNone(store: Store, cells: seq<CellAddress>, n: nat, fuel: nat)
    requires n <= |cells| && CellsResolution(store, cells[..n], fuel).None?
    ensures CellsResolution(store, cells, fuel).None?
  {
    CellsResolutionNone(store, cells[..n], fuel);
    var k :| 0 <= k < n && CellResolution(store, cells[..n][k], fuel, Str("")).None?;
    assert cells[..n][k] == cells[k];
    CellsResolutionNone(store, cells, fuel);
  }

  /** One more cell of a sequence whose prefix resolved: its value extends the values,
      and when it fails the whole sequence fails. */
  lemma ExpandStep(store: Store, cells: seq<CellAddress>, k: nat, fuel: nat, vs: seq<Literal>)
    requires k < |cells| && CellsResolution(store, cells[..k], fuel) == Some(vs)
    ensures CellResolution(store, cells[k], fuel, Str("")).Some? ==>
      CellsResolution(store, cells[..k + 1], fuel) == Some(vs + [CellResolution(store, cells[k], fuel, Str("")).value])
    ensures CellResolution(store, cells[k], fuel, Str("")).None? ==> CellsResolution(store, cells, fuel).None?
  {
    assert cells[..k + 1] == cells[..k] + [cells[k]];
    CellsResolutionSnoc(store, cells[..k], cells[k], fuel);
    if CellResolution(store, cells[k], fuel, Str("")).None? {
      CellsResolutionPrefixNone(store, cells, k + 1, fuel);
    }
  }

  /** expandRange: one value per address of the rectangle, in the order RangeCellsIndex
      gives; an empty cell gives "", a stored one its resolution. */
  lemma ExpandedRange(store: Store, range: AddressRange, fuel: nat, vs: seq<Literal>)
    requires CellsResolution(store, RangeCells(range), fuel) == Some(vs)
    ensures |vs| == Height(range) * Width(range)
    ensures forall k :: 0 <= k < |vs| ==>
      && (RangeCells(range)[k] !in store ==> vs[k] == Str(""))
      && (RangeCells(range)[k] in store ==>
            fuel > 0 && Resolution(store, store[RangeCells(range)[k]], fuel - 1) == Some(vs[k]))
  {
    var cells := RangeCells(range);
    CellsResolutionIff(store, cells, fuel, vs);
    assert forall k :: 0 <= k < |cells| ==> CellResolution(store, cells[k], fuel, Str("")) == Some(vs[k]);
  }

  /** Two partial resolutions spliced together; None when either failed. */
  function Spliced(a: Option<seq<Literal>>, b: Option<seq<Literal>>): (r: Option<seq<Literal>>)
    ensures r.Some? <==> a.Some? && b.Some?
    ensures r.Some? ==> r.value == a.value + b.value
  {
    if a.Some? && b.Some? then Some(a.value + b.value) else None
  }

  lemma SplicedAssociative(a: Option<seq<Literal>>, b: Option<seq<Literal>>, c: Option<seq<Literal>>)
    ensures Spliced(Spliced(a, b), c) == Spliced(a, Spliced(b, c))
  {
    if a.Some? && b.Some? && c.Some? {
      assert a.value + b.value + c.value == a.value + (b.value + c.value);
    }
  }

  /** One more parameter extends the flattened values by that parameter's values. */
  lemma FlattenedSnoc(store: Store, ps: seq<FormulaParam>, p: FormulaParam, fuel: nat)
    ensures Flattened(store, ps + [p], fuel) == Spliced(Flattened(store, ps, fuel), ParamValues(store, p, fuel))
  {
    assert (ps + [p])[..|ps|] == ps;
  }

  /** flattenArgs of two parameter lists one after the other splices their values. */
  lemma {:induction false} FlattenedAppend(store: Store, ps: seq<FormulaParam>, qs: seq<FormulaParam>, fuel: nat)
    ensures Flattened(store, ps + qs, fuel) == Spliced(Flattened(store, ps, fuel), Flattened(store, qs, fuel))
  {
    if qs == [] {
      assert ps + qs == ps;
      if Flattened(store, ps, fuel).Some? {
        assert Flattened(store, ps, fuel).value + [] == Flattened(store, ps, fuel).value;
      }
    } else {
      var qinit := qs[..|qs| - 1];
      var q := qs[|qs| - 1];
      assert qs == qinit + [q];
      assert ps + qs == (ps + qinit) + [q];
      FlattenedAppend(store, ps, qinit, fuel);
      FlattenedSnoc(store, ps + qinit, q, fuel);
      FlattenedSnoc(store, qinit, q, fuel);
      SplicedAssociative(Flattened(store, ps, fuel), Flattened(store, qinit, fuel), ParamValues(store, q, fuel));
    }
  }

  /** A prefix of the parameters that fails to resolve makes the whole list fail. */
  lemma FlattenedPrefixNone(store: Store, ps: seq<FormulaParam>, n: nat, fuel: nat)
    requires n <= |ps| && Flattened(store, ps[..n], fuel).None?
    ensures Flattened(store, ps, fuel).None?
  {
    assert ps == ps[..n] + ps[n..];
    FlattenedAppend(store, ps[..n], ps[n..], fuel);
  }

  /** flattenArgs of one parameter is that parameter's values; of a parameter followed
      by more, its values followed by theirs. */
  lemma FlattenedCons(store: Store, p: FormulaParam, ps: seq<FormulaParam>, fuel: nat)
    ensures Flattened(store, [p], fuel) == ParamValues(store, p, fuel)
    ensures Flattened(store, [p] + ps, fuel) == Spliced(ParamValues(store, p, fuel), Flattened(store, ps, fuel))
  {
    FlattenedSnoc(store, [], p, fuel);
    assert [] + [p] == [p];
    if ParamValues(store, p, fuel).Some? {
      assert [] + ParamValues(store, p, fuel).value == ParamValues(store, p, fuel).value;
    }
    FlattenedAppend(store, [p], ps, fuel);
  }

  // ---------------------------------------------------------------------------------
  // Fuel only bounds the depth: once a resolution is reached, more fuel changes nothing.

  lemma {:induction false} ResolutionMonotone(store: Store, v: CellValue, fuel: nat, more: nat)
    requires fuel <= more && Resolution(store, v, fuel).Some?
    ensures Resolution(store, v, more) == Resolution(store, v, fuel)
    decreases fuel, 5, 0
  {
    match v
    case Lit(_) =>
    case Ref(a) => CellMonotone(store, a, fuel, more, Str(RefError));
    case Formula(f) => FormulaMonotone(store, f, fuel, more);
  }

  lemma {:induction false} CellMonotone(store: Store, a: CellAddress, fuel: nat, more: nat, absent: Literal)
    requires fuel <= more && CellResolution(store, a, fuel, absent).Some?
    ensures CellResolution(store, a, more, absent) == CellResolution(store, a, fuel, absent)
    decreases fuel, 0, 0
  {
    if a in store {
      ResolutionMonotone(store, store[a], fuel - 1, more - 1);
    }
  }

  lemma {:induction false} CellsMonotone(store: Store, cells: seq<CellAddress>, fuel: nat, more: nat)
    requires fuel <= more && CellsResolution(store, cells, fuel).Some?
    ensures CellsResolution(store, cells, more) == CellsResolution(store, cells, fuel)
    decreases fuel, 1, |cells|
  {
    if cells != [] {
      CellsMonotone(store, cells[..|cells| - 1], fuel, more);
      CellMonotone(store, cells[|cells| - 1], fuel, more, Str(""));
    }
  }

  lemma {:induction false} ParamMonotone(store: Store, p: FormulaParam, fuel: nat, more: nat)
    requires fuel <= more && ParamValues(store, p, fuel).Some?
    ensures ParamValues(store, p, more) == ParamValues(store, p, fuel)
    decreases fuel, 2, 0
  {
    match p
    case LitParam(_) =>
    case CellParam(a) => CellMonotone(store, a, fuel, more, Str(""));
    case RangeParam(range) => CellsMonotone(store, RangeCells(range), fuel, more);
  }

  lemma {:induction false} FlattenedMonotone(store: Store, ps: seq<FormulaParam>, fuel: nat, more: nat)
    requires fuel <= more && Flattened(store, ps, fuel).Some?
    ensures Flattened(store, ps, more) == Flattened(store, ps, fuel)
    decreases fuel, 3, |ps|
  {
    if ps != [] {
      FlattenedMonotone(store, ps[..|ps| - 1], fuel, more);
      ParamMonotone(store, ps[|ps| - 1], fuel, more);
    }
  }

  lemma {:induction false} FormulaMonotone(store: Store, f: FormulaValue, fuel: nat, more: nat)
    requires fuel <= more && FormulaResolution(store, f, fuel).Some?
    ensures FormulaResolution(store, f, more) == FormulaResolution(store, f, fuel)
    decreases fuel, 4, 0
  {
    var ps := f.parameters;
    match f.ftype
    case SUM => FlattenedMonotone(store, ps, fuel, more);
    case AVERAGE => FlattenedMonotone(store, ps, fuel, more);
    case SUBSTR =>
      if |ps| == 3 && !ps[0].RangeParam? {
        FlattenedMonotone(store, ps, fuel, more);
      }
    case LEN =>
      if |ps| == 1 && !ps[0].RangeParam? {
        FlattenedMonotone(store, ps, fuel, more);
      }
    case MIN =>
      if SingleRange(ps) {
        CellsMonotone(store, RangeCells(ps[0].range), fuel, more);
      }
    case MAX =>
      if SingleRange(ps) {
        CellsMonotone(store, RangeCells(ps[0].range), fuel, more);
      }
    case COUNT =>
      if SingleRange(ps) {
        CellsMonotone(store, RangeCells(ps[0].range), fuel, more);
      }
    case CONCAT =>
      if RangeAndLiteral(ps) {
        CellsMonotone(store, RangeCells(ps[0].range), fuel, more);
      }
  }

  /** The display text, once reached, is the same for every larger fuel. */
  lemma EvaluationMonotone(store: Store, v: CellValue, fuel: nat, more: nat)
    requires fuel <= more && Evaluation(store, v, fuel).Some?
    ensures Evaluation(store, v, more) == Evaluation(store, v, fuel)
  {
    ResolutionMonotone(store, v, fuel, more);
  }

  // ---------------------------------------------------------------------------------
  // resolve on references, and the missing cycle guard.

  /** A reference to an empty cell is "#REF!"; to a stored cell, that cell's resolution. */
  lemma ReferenceResolution(store: Store, a: CellAddress, fuel: nat)
    ensures a !in store ==> Resolution(store, Ref(a), fuel) == Some(Str(RefError))
    ensures a in store && fuel > 0 ==> Resolution(store, Ref(a), fuel) == Resolution(store, store[a], fuel - 1)
    ensures a in store && fuel == 0 ==> Resolution(store, Ref(a), fuel).None?
  {
  }

  /** Cells that all refer to one another never resolve, whatever the fuel: the source's
      recursion without a cycle guard does not end on them. */
  lemma {:induction false} CycleDiverges(store: Store, cycle: set<CellAddress>, a: CellAddress, fuel: nat, absent: Literal)
    requires a in cycle
    requires forall b :: b in cycle ==> b in store && store[b].Ref? && store[b].target in cycle
    ensures CellResolution(store, a, fuel, absent).None?
    decreases fuel
  {
    if fuel > 0 {
      CycleDiverges(store, cycle, store[a].target, fuel - 1, Str(RefError));
    }
  }

  /** In particular a cell that refers to itself never resolves. */
  lemma SelfReferenceDiverges(store: Store, a: CellAddress, fuel: nat)
    requires a in store && store[a] == Ref(a)
    ensures Resolution(store, Ref(a), fuel).None?
  {
    CycleDiverges(store, {a}, a, fuel, Str(RefError));
  }

  // ---------------------------------------------------------------------------------
  // Formula-level facts.

  /** The formulas that resolve their arguments with flattenArgs. */
  predicate FlattensArguments(t: FormulaType)
  {
    t == SUM || t == AVERAGE || t == SUBSTR || t == LEN
  }

  /** Poisoning at formula level: when a SUM, AVERAGE, SUBSTR or LEN's flattened
      arguments, or a MIN, MAX, COUNT or CONCAT's range values, hold an error string, the
      formula is "#VALUE!". */
  lemma FormulaPoisoned(store: Store, f: FormulaValue, fuel: nat)
    requires
      var ps := f.parameters;
      if FlattensArguments(f.ftype) then
        Flattened(store, ps, fuel).Some? && ContainsErrorLiteral(Flattened(store, ps, fuel).value)
      else
        |ps| >= 1 && ps[0].RangeParam?
        && CellsResolution(store, RangeCells(ps[0].range), fuel).Some?
        && ContainsErrorLiteral(CellsResolution(store, RangeCells(ps[0].range), fuel).value)
    ensures FormulaResolution(store, f, fuel) == Some(Str(ValueError))
  {
    if FlattensArguments(f.ftype) {
      FlattenedPoisoned(store, f, fuel);
    } else {
      RangePoisoned(store, f, fuel);
    }
  }

  lemma FlattenedPoisoned(store: Store, f: FormulaValue, fuel: nat)
    requires FlattensArguments(f.ftype)
    requires Flattened(store, f.parameters, fuel).Some?
    requires ContainsErrorLiteral(Flattened(store, f.parameters, fuel).value)
    ensures FormulaResolution(store, f, fuel) == Some(Str(ValueError))
  {
    PoisonedArguments(Flattened(store, f.parameters, fuel).value, "");
  }

  lemma RangePoisoned(store: Store, f: FormulaValue, fuel: nat)
    requires !FlattensArguments(f.ftype)
    requires |f.parameters| >= 1 && f.parameters[0].RangeParam?
    requires CellsResolution(store, RangeCells(f.parameters[0].range), fuel).Some?
    requires ContainsErrorLiteral(CellsResolution(store, RangeCells(f.parameters[0].range), fuel).value)
    ensures FormulaResolution(store, f, fuel) == Some(Str(ValueError))
  {
    var ps := f.parameters;
    var vals := CellsResolution(store, RangeCells(ps[0].range), fuel).value;
    match f.ftype {
      case MIN => PoisonedArguments(vals, "");
      case MAX => PoisonedArguments(vals, "");
      case COUNT => PoisonedArguments(vals, "");
      case CONCAT =>
        if RangeAndLiteral(ps) {
          PoisonedArguments(vals, StringValue(ps[1].literal));
        }
    }
  }

  lemma SumFormula(store: Store, ps: seq<FormulaParam>, fuel: nat)
    ensures FormulaResolution(store, FormulaValue(SUM, ps), fuel) ==
      if Flattened(store, ps, fuel).Some? then Some(SumOf(Flattened(store, ps, fuel).value)) else None
  {
  }

  /** SUM over two argument lists spliced together is the sum of the two SUMs. */
  lemma SumOfSplicedArguments(store: Store, ps: seq<FormulaParam>, qs: seq<FormulaParam>, fuel: nat)
    requires FormulaResolution(store, FormulaValue(SUM, ps), fuel).Some?
    requires FormulaResolution(store, FormulaValue(SUM, qs), fuel).Some?
    requires FormulaResolution(store, FormulaValue(SUM, ps), fuel).value.Int?
    requires FormulaResolution(store, FormulaValue(SUM, qs), fuel).value.Int?
    ensures FormulaResolution(store, FormulaValue(SUM, ps + qs), fuel) ==
      Some(Int(FormulaResolution(store, FormulaValue(SUM, ps), fuel).value.n
               + FormulaResolution(store, FormulaValue(SUM, qs), fuel).value.n))
  {
    var a := SumArguments(store, ps, fuel);
    var b := SumArguments(store, qs, fuel);
    FlattenedAppend(store, ps, qs, fuel);
    SumFormula(store, ps + qs, fuel);
    SumOfAppend(a, b);
  }

  /** The values a SUM that resolves adds up. */
  lemma SumArguments(store: Store, ps: seq<FormulaParam>, fuel: nat) returns (vals: seq<Literal>)
    requires FormulaResolution(store, FormulaValue(SUM, ps), fuel).Some?
    ensures Flattened(store, ps, fuel) == Some(vals)
    ensures FormulaResolution(store, FormulaValue(SUM, ps), fuel) == Some(SumOf(vals))
  {
    SumFormula(store, ps, fuel);
    vals := Flattened(store, ps, fuel).value;
  }

  /** COUNT of a range is never more than the number of cells in it. */
  lemma CountAtMostCells(store: Store, range: AddressRange, fuel: nat)
    requires FormulaResolution(store, FormulaValue(COUNT, [RangeParam(range)]), fuel).Some?
    ensures var r := FormulaResolution(store, FormulaValue(COUNT, [RangeParam(range)]), fuel).value;
      r == Str(ValueError) || (r.Int? && 0 <= r.n <= Height(range) * Width(range))
  {
    var vals := CellsResolution(store, RangeCells(range), fuel).value;
    if !ContainsErrorLiteral(vals) {
      CountOfSpec(vals);
    }
  }

  // ---------------------------------------------------------------------------------
  // The documented examples. In an address the letters name the row and the digits the
  // column: "A3" is row 0, column 2.

  /** B1 refers to A1 holding 5: B1 shows "5"; with A1 deleted, B1 shows "#REF!". */
  lemma ReferenceExample(store: Store)
    requires CellAddress(0, 0) in store && store[CellAddress(0, 0)] == Lit(Int(5))
    requires CellAddress(1, 0) in store && store[CellAddress(1, 0)] == Ref(CellAddress(0, 0))
    ensures Evaluation(store, store[CellAddress(1, 0)], 1) == Some("5")
    ensures Evaluation(store - {CellAddress(0, 0)}, store[CellAddress(1, 0)], 0) == Some("#REF!")
  {
    assert NatToDecimal(5) == "5" by {
      assert DigitChar(5) == '5';
    }
    assert CellAddress(0, 0) !in store - {CellAddress(0, 0)};
  }

  /** The first w columns of row 0. */
  lemma FirstColumns()
    ensures RowCells(0, 0, 3) == [CellAddress(0, 0), CellAddress(0, 1), CellAddress(0, 2)]
    ensures RowCells(0, 0, 4) == [CellAddress(0, 0), CellAddress(0, 1), CellAddress(0, 2), CellAddress(0, 3)]
  {
    assert RowCells(0, 0, 1) == [CellAddress(0, 0)];
    assert RowCells(0, 0, 2) == [CellAddress(0, 0), CellAddress(0, 1)];
  }

  lemma CellsResolutionOne(store: Store, a: CellAddress, fuel: nat, x: Literal)
    requires CellResolution(store, a, fuel, Str("")) == Some(x)
    ensures CellsResolution(store, [a], fuel) == Some([x])
  {
    CellsResolutionIff(store, [a], fuel, [x]);
  }

  lemma CellsResolutionThree(store: Store, a: CellAddress, b: CellAddress, c: CellAddress, fuel: nat,
                             x: Literal, y: Literal, z: Literal)
    requires CellResolution(store, a, fuel, Str("")) == Some(x)
    requires CellResolution(store, b, fuel, Str("")) == Some(y)
    requires CellResolution(store, c, fuel, Str("")) == Some(z)
    ensures CellsResolution(store, [a, b, c], fuel) == Some([x, y, z])
  {
    CellsResolutionIff(store, [a, b, c], fuel, [x, y, z]);
  }

  lemma CellsResolutionFour(store: Store, a: CellAddress, b: CellAddress, c: CellAddress, d: CellAddress,
                            fuel: nat, x: Literal, y: Literal, z: Literal, u: Literal)
    requires CellResolution(store, a, fuel, Str("")) == Some(x)
    requires CellResolution(store, b, fuel, Str("")) == Some(y)
    requires CellResolution(store, c, fuel, Str("")) == Some(z)
    requires CellResolution(store, d, fuel, Str("")) == Some(u)
    ensures CellsResolution(store, [a, b, c, d], fuel) == Some([x, y, z, u])
  {
    CellsResolutionIff(store, [a, b, c, d], fuel, [x, y, z, u]);
  }

  /** A text starting with a lower-case letter is neither a number nor an error text. */
  lemma PlainText(t: string)
    requires |t| >= 1 && 'a' <= t[0] <= 'z'
    ensures !IsIntegerText(t) && !IsErrorText(t)
  {
    assert !IsDigit(t[0]);
    if |t| >= 7 {
      assert t[..7][0] == t[0];
    }
  }

  /** SUM skips the empty and the plain texts: with a 1 beside them the sum is 1, without
      a number it is "#VALUE!". */
  lemma SkippedValues(t: string)
    requires |t| >= 1 && 'a' <= t[0] <= 'z'
    ensures SumOf([Int(1), Str(""), Str(t)]) == Int(1)
    ensures SumOf([Str(""), Str(""), Str(t)]) == Str(ValueError)
  {
    PlainText(t);
    var empty := "";
    assert !IsIntegerText(empty) && !IsErrorText(empty);
    var one := [Int(1)];
    SumSkipsText(one, empty);
    SumSkipsText(one + [Str(empty)], t);
    assert one + [Str(empty)] + [Str(t)] == [Int(1), Str(""), Str(t)];
    var none := [Str(empty), Str(empty), Str(t)];
    assert NumericValue(none[0]).None? && NumericValue(none[1]).None? && NumericValue(none[2]).None?;
    SumOfError(none);
  }

  /** SUM(A1:A3) with A1 = 1, A2 empty and A3 = "x" is 1: the text and the empty cell are
      skipped. */
  lemma SumSkipExample(store: Store, range: AddressRange, fuel: nat)
    requires range == AddressRange(CellAddress(0, 0), CellAddress(0, 2)) && fuel >= 1
    requires CellAddress(0, 0) in store && store[CellAddress(0, 0)] == Lit(Int(1))
    requires CellAddress(0, 1) !in store
    requires CellAddress(0, 2) in store && store[CellAddress(0, 2)] == Lit(Str("x"))
    ensures FormulaResolution(store, FormulaValue(SUM, [RangeParam(range)]), fuel) == Some(Int(1))
  {
    SumOverRowExample(store, range, fuel, Int(1), Str(""), Str("x"));
    SkippedValues("x");
  }

  /** SUM(A1:A3) with no number in the range is "#VALUE!". */
  lemma SumAllEmptyExample(store: Store, range: AddressRange, fuel: nat)
    requires range == AddressRange(CellAddress(0, 0), CellAddress(0, 2)) && fuel >= 1
    requires CellAddress(0, 0) !in store && CellAddress(0, 1) !in store
    requires CellAddress(0, 2) in store && store[CellAddress(0, 2)] == Lit(Str("x"))
    ensures FormulaResolution(store, FormulaValue(SUM, [RangeParam(range)]), fuel) == Some(Str(ValueError))
  {
    SumOverRowExample(store, range, fuel, Str(""), Str(""), Str("x"));
    SkippedValues("x");
  }

  /** The SUM over the first three columns of row 0. */
  lemma SumOverRowExample(store: Store, range: AddressRange, fuel: nat, x: Literal, y: Literal, z: Literal)
    requires range == AddressRange(CellAddress(0, 0), CellAddress(0, 2))
    requires CellResolution(store, CellAddress(0, 0), fuel, Str("")) == Some(x)
    requires CellResolution(store, CellAddress(0, 1), fuel, Str("")) == Some(y)
    requires CellResolution(store, CellAddress(0, 2), fuel, Str("")) == Some(z)
    ensures FormulaResolution(store, FormulaValue(SUM, [RangeParam(range)]), fuel) == Some(SumOf([x, y, z]))
  {
    FirstColumns();
    assert RangeCells(range) == [CellAddress(0, 0), CellAddress(0, 1), CellAddress(0, 2)];
    CellsResolutionThree(store, CellAddress(0, 0), CellAddress(0, 1), CellAddress(0, 2), fuel, x, y, z);
    SumOfRange(store, range, fuel, [x, y, z]);
  }

  /** SUM of a lone range adds up the range's values. */
  lemma SumOfRange(store: Store, range: AddressRange, fuel: nat, vals: seq<Literal>)
    requires CellsResolution(store, RangeCells(range), fuel) == Some(vals)
    ensures FormulaResolution(store, FormulaValue(SUM, [RangeParam(range)]), fuel) == Some(SumOf(vals))
  {
    FlattenedRange(store, range, fuel);
    SumFormula(store, [RangeParam(range)], fuel);
  }

  lemma FlattenedLiterals(store: Store, x: Literal, y: Literal, z: Literal, fuel: nat)
    ensures Flattened(store, [LitParam(x), LitParam(y), LitParam(z)], fuel) == Some([x, y, z])
  {
    FlattenedCons(store, LitParam(x), [], fuel);
    FlattenedSnoc(store, [LitParam(x)], LitParam(y), fuel);
    assert [LitParam(x)] + [LitParam(y)] == [LitParam(x), LitParam(y)];
    FlattenedSnoc(store, [LitParam(x), LitParam(y)], LitParam(z), fuel);
    assert [LitParam(x), LitParam(y)] + [LitParam(z)] == [LitParam(x), LitParam(y), LitParam(z)];
    assert [x] + [y] + [z] == [x, y, z];
  }

  /** SUBSTR of three literals is evalSUBSTR of their values, whatever the store. */
  lemma SubstrOfLiterals(store: Store, fuel: nat, t: string, start: int, length: int)
    ensures FormulaResolution(store, FormulaValue(SUBSTR, [LitParam(Str(t)), LitParam(Int(start)), LitParam(Int(length))]), fuel)
      == Some(SubstrOf([Str(t), Int(start), Int(length)]))
  {
    var ps := [LitParam(Str(t)), LitParam(Int(start)), LitParam(Int(length))];
    FlattenedLiterals(store, Str(t), Int(start), Int(length), fuel);
    assert |ps| == 3 && !ps[0].RangeParam?;
  }

  lemma SubstrValues()
    ensures SubstrOf([Str("hello"), Int(1), Int(5)]) == Str("hello")
    ensures SubstrOf([Str("hello"), Int(6), Int(1)]) == Str(ValueError)
    ensures SubstrOf([Str("hello"), Int(0), Int(1)]) == Str(ValueError)
  {
    assert !ContainsErrorLiteral([Str("hello"), Int(1), Int(5)]);
    assert !ContainsErrorLiteral([Str("hello"), Int(6), Int(1)]);
    assert !ContainsErrorLiteral([Str("hello"), Int(0), Int(1)]);
    assert "hello"[0..5] == "hello";
  }

  /** SUBSTR("hello", 1, 5) is "hello"; a start past the end or below 1 is "#VALUE!". */
  lemma SubstrExample(store: Store, fuel: nat)
    ensures FormulaResolution(store, FormulaValue(SUBSTR, [LitParam(Str("hello")), LitParam(Int(1)), LitParam(Int(5))]), fuel)
      == Some(Str("hello"))
    ensures FormulaResolution(store, FormulaValue(SUBSTR, [LitParam(Str("hello")), LitParam(Int(6)), LitParam(Int(1))]), fuel)
      == Some(Str(ValueError))
    ensures FormulaResolution(store, FormulaValue(SUBSTR, [LitParam(Str("hello")), LitParam(Int(0)), LitParam(Int(1))]), fuel)
      == Some(Str(ValueError))
  {
    SubstrOfLiterals(store, fuel, "hello", 1, 5);
    SubstrOfLiterals(store, fuel, "hello", 6, 1);
    SubstrOfLiterals(store, fuel, "hello", 0, 1);
    SubstrValues();
  }

  lemma DanglingRange(store: Store, range: AddressRange, target: CellAddress, fuel: nat)
    requires range == AddressRange(CellAddress(0, 0), CellAddress(0, 0)) && fuel >= 1
    requires CellAddress(0, 0) in store && store[CellAddress(0, 0)] == Ref(target) && target !in store
    ensures CellsResolution(store, RangeCells(range), fuel) == Some([Str(RefError)])
  {
    var a1 := CellAddress(0, 0);
    DanglingReference(store, target, fuel - 1);
    assert CellResolution(store, a1, fuel, Str("")) == Resolution(store, Ref(target), fuel - 1);
    assert RowCells(0, 0, 1) == [a1];
    assert RangeCells(range) == [a1];
    CellsResolutionOne(store, a1, fuel, Str(RefError));
  }

  /** A reference to an empty cell resolves to "#REF!" within any fuel. */
  lemma DanglingReference(store: Store, target: CellAddress, fuel: nat)
    requires target !in store
    ensures Resolution(store, Ref(target), fuel) == Some(Str(RefError))
  {
  }

  /** ... and so displays as "#REF!". */
  lemma DanglingDisplay(store: Store, target: CellAddress, fuel: nat)
    requires target !in store
    ensures Evaluation(store, Ref(target), fuel) == Some(RefError)
  {
    DanglingReference(store, target, fuel);
    assert LiteralToString(Str(RefError)) == RefError;
  }

  /** flattenArgs of a lone range is that range's expansion. */
  lemma FlattenedRange(store: Store, range: AddressRange, fuel: nat)
    ensures Flattened(store, [RangeParam(range)], fuel) == CellsResolution(store, RangeCells(range), fuel)
  {
    FlattenedCons(store, RangeParam(range), [], fuel);
  }

  lemma RefErrorPoisons(vals: seq<Literal>)
    requires vals == [Str(RefError)]
    ensures SumOf(vals) == Str(ValueError)
  {
    assert IsErrorLiteral(vals[0]);
  }

  /** A1 refers to an empty cell and so shows "#REF!"; SUM(A1:A1) is then "#VALUE!". */
  lemma PropagationExample(store: Store, range: AddressRange, target: CellAddress, fuel: nat)
    requires range == AddressRange(CellAddress(0, 0), CellAddress(0, 0)) && fuel >= 1
    requires CellAddress(0, 0) in store && store[CellAddress(0, 0)] == Ref(target) && target !in store
    ensures Evaluation(store, store[CellAddress(0, 0)], fuel) == Some(RefError)
    ensures FormulaResolution(store, FormulaValue(SUM, [RangeParam(range)]), fuel) == Some(Str(ValueError))
  {
    DanglingDisplay(store, target, fuel);
    var vals := [Str(RefError)];
    DanglingRange(store, range, target, fuel);
    SumOfRange(store, range, fuel, vals);
    RefErrorPoisons(vals);
  }

  lemma CountedValues()
    ensures CountOf([Int(7), Bool(true), Str(""), Str("x")]) == Int(2)
  {
    var vals := [Int(7), Bool(true), Str(""), Str("x")];
    assert !IsDigit("x"[0]);
    assert !IsIntegerText("x") && !IsIntegerText("");
    assert vals[..3] == [Int(7), Bool(true), Str("")];
    assert vals[..3][..2] == [Int(7), Bool(true)];
    assert vals[..3][..2][..1] == [Int(7)];
    assert CountCounted([Int(7)]) == 1;
    assert CountCounted([Int(7), Bool(true)]) == 2;
    assert CountCounted([Int(7), Bool(true), Str("")]) == 2;
    assert !ContainsErrorLiteral(vals);
  }

  /** COUNT of a lone range counts the range's values. */
  lemma CountOfRange(store: Store, range: AddressRange, fuel: nat, vals: seq<Literal>)
    requires CellsResolution(store, RangeCells(range), fuel) == Some(vals)
    ensures FormulaResolution(store, FormulaValue(COUNT, [RangeParam(range)]), fuel) == Some(CountOf(vals))
  {
    assert SingleRange([RangeParam(range)]);
  }

  /** COUNT over a number, a boolean, an empty cell and a non-numeric text counts 2: the
      number and the boolean (the code counts text only when it reads as a number). */
  lemma CountExample(store: Store, range: AddressRange, fuel: nat)
    requires range == AddressRange(CellAddress(0, 0), CellAddress(0, 3)) && fuel >= 1
    requires CellAddress(0, 0) in store && store[CellAddress(0, 0)] == Lit(Int(7))
    requires CellAddress(0, 1) in store && store[CellAddress(0, 1)] == Lit(Bool(true))
    requires CellAddress(0, 2) !in store
    requires CellAddress(0, 3) in store && store[CellAddress(0, 3)] == Lit(Str("x"))
    ensures FormulaResolution(store, FormulaValue(COUNT, [RangeParam(range)]), fuel) == Some(Int(2))
  {
    var a1, a2, a3, a4 := CellAddress(0, 0), CellAddress(0, 1), CellAddress(0, 2), CellAddress(0, 3);
    FirstColumns();
    assert RangeCells(range) == [a1, a2, a3, a4];
    CellsResolutionFour(store, a1, a2, a3, a4, fuel, Int(7), Bool(true), Str(""), Str("x"));
    CountOfRange(store, range, fuel, [Int(7), Bool(true), Str(""), Str("x")]);
    CountedValues();
  }
}
