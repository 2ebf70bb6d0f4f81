/** TableViewModel: applies an edit to the cell store and then re-evaluates every stored
    cell into the display cache, so that after construction and after every edit the
    cache holds exactly one display text per stored address, the text its value
    evaluates to. */
module ViewModel {
  import opened Wrappers
  import opened Addresses
  import opened Formulas
  import opened Resolver
  import opened ResolverProperties
  import opened TableModels
  import opened CellEvaluation
  import opened Configuration

  /** The store an event leaves: insert, reference and formula events store a literal, a
      reference and a formula at their target; a delete event removes the target. */
  function Applied(store: Store, event: Event): Store
  {
    match event
    case InsertEvent(target, value) => store[target := Lit(value)]
    case DeleteEvent(target) => store - {target}
    case ReferenceEvent(target, source) => store[target := Ref(source)]
    case FormulaEvent(target, formula, params) => store[target := Formula(FormulaValue(formula, params))]
  }

  /** No event touches any address but its target, and each leaves at its target the
      value it names (deletion leaves nothing). */
  lemma AppliedEffect(store: Store, event: Event)
    ensures forall b :: b != event.target ==>
      (b in Applied(store, event) <==> b in store) &&
      (b in store ==> Applied(store, event)[b] == store[b])
    ensures event.DeleteEvent? <==> event.target !in Applied(store, event)
    ensures event.InsertEvent? ==> Applied(store, event)[event.target] == Lit(event.value)
    ensures event.ReferenceEvent? ==> Applied(store, event)[event.target] == Ref(event.source)
    ensures event.FormulaEvent? ==>
      Applied(store, event)[event.target] == Formula(FormulaValue(event.formula, event.params))
  {
  }

  /** Every stored value evaluates within the fuel: the source, which has no cycle guard,
      would otherwise not return. */
  ghost predicate Terminates(store: Store, fuel: nat)
  {
    forall a :: a in store ==> Evaluation(store, store[a], fuel).Some?
  }

  /** The display cache a store calls for: one text per stored address. */
  ghost function Displays(store: Store, fuel: nat): (display: map<CellAddress, string>)
    requires Terminates(store, fuel)
    ensures display.Keys == store.Keys
  {
    map a | a in store :: Evaluation(store, store[a], fuel).value
  }

  /** The cache does not depend on which sufficient fuel computes it. */
  lemma DisplaysFuelIndependent(store: Store, fuel: nat, other: nat)
    requires Terminates(store, fuel) && Terminates(store, other)
    ensures Displays(store, fuel) == Displays(store, other)
  {
    forall a | a in store
      ensures Evaluation(store, store[a], fuel) == Evaluation(store, store[a], other)
    {
      if fuel <= other {
        EvaluationMonotone(store, store[a], fuel, other);
      } else {
        EvaluationMonotone(store, store[a], other, fuel);
      }
    }
  }

  /** Re-displaying every stored cell overwrites a cache whose addresses are all stored. */
  lemma RefreshOverwrites(display: map<CellAddress, string>, store: Store, fuel: nat)
    requires Terminates(store, fuel) && display.Keys <= store.Keys
    ensures display + Displays(store, fuel) == Displays(store, fuel)
  {
  }

  /** The part of the cache for the addresses displayed so far. */
  ghost function Shown(store: Store, done: set<CellAddress>, fuel: nat): map<CellAddress, string>
    requires done <= store.Keys && Terminates(store, fuel)
  {
    map a | a in done :: Evaluation(store, store[a], fuel).value
  }

  /** Displaying one more address adds its text on top of what was cached. */
  lemma ShownStep(base: map<CellAddress, string>, store: Store, done: set<CellAddress>,
                  a: CellAddress, fuel: nat)
    requires done <= store.Keys && a in store && Terminates(store, fuel)
    ensures base + Shown(store, done + {a}, fuel) ==
      (base + Shown(store, done, fuel))[a := Evaluation(store, store[a], fuel).value]
  {
  }

  class TableViewModel {
    const configuration: TableConfiguration
    const tableModel: TableModel
    const displayableTableModel: DisplayableTableModel
    /** A fuel within which every stored cell evaluates (stands for the stack depth). */
    ghost var depth: nat

    /** The display cache is exactly the evaluation of the store. */
    ghost predicate Valid()
      reads this, tableModel, displayableTableModel
    {
      && Terminates(tableModel.cells, depth)
      && displayableTableModel.displayValues == Displays(tableModel.cells, depth)
    }

    /** The model takes the store, starts an empty cache and fills it from the store. */
    constructor(config: TableConfiguration, tableModel: TableModel, fuel: nat)
      requires Terminates(tableModel.cells, fuel)
      ensures this.configuration == config && this.tableModel == tableModel
      ensures tableModel.cells == old(tableModel.cells)
      ensures displayableTableModel.displayValues == Displays(tableModel.cells, fuel)
      ensures fresh(displayableTableModel)
      ensures Valid()
    {
      this.configuration := config;
      this.tableModel := tableModel;
      this.displayableTableModel := new DisplayableTableModel();
      this.depth := fuel;
      new;
      UpdateAllDisplayableCells(fuel);
    }

    function GetConfiguration(): TableConfiguration
    {
      configuration
    }

    /** handle: the store becomes Applied of the event (a deletion also drops the target's
        display text), then every stored cell is re-displayed. */
    method Handle(event: Event, fuel: nat)
      requires Valid()
      requires Terminates(Applied(tableModel.cells, event), fuel)
      modifies this, tableModel, displayableTableModel
      ensures tableModel.cells == Applied(old(tableModel.cells), event)
      ensures displayableTableModel.displayValues == Displays(tableModel.cells, fuel)
      ensures Valid()
    {
      ghost var cache := displayableTableModel.displayValues;
      assert cache.Keys == tableModel.cells.Keys;
      match event {
        case InsertEvent(target, value) =>
          tableModel.SetCellValue(target, Lit(value));
        case DeleteEvent(target) =>
          tableModel.RemoveCellValue(target);
          displayableTableModel.RemoveDisplayValue(target);
        case ReferenceEvent(target, source) =>
          tableModel.SetCellValue(target, Ref(source));
        case FormulaEvent(target, formula, params) =>
          tableModel.SetCellValue(target, Formula(FormulaValue(formula, params)));
      }
      RefreshOverwrites(displayableTableModel.displayValues, tableModel.cells, fuel);
      UpdateAllDisplayableCells(fuel);
      depth := fuel;
    }

    /** updateDisplayableCell: a stored address gets the text its value evaluates to; an
        absent one is left alone. */
    method UpdateDisplayableCell(address: CellAddress, fuel: nat)
      requires address in tableModel.cells ==>
        Evaluation(tableModel.cells, tableModel.cells[address], fuel).Some?
      modifies displayableTableModel
      ensures address in tableModel.cells ==>
        displayableTableModel.displayValues ==
          old(displayableTableModel.displayValues)[address :=
            Evaluation(tableModel.cells, tableModel.cells[address], fuel).value]
      ensures address !in tableModel.cells ==>
        displayableTableModel.displayValues == old(displayableTableModel.displayValues)
    {
      var cellValue := tableModel.GetCellValue(address);
      if cellValue.Some? {
        var evaluator := new CellEvaluator(tableModel);
        var text := evaluator.Evaluate(cellValue.value, fuel);
        displayableTableModel.SetDisplayValue(address, text.value);
      }
    }

    /** updateAllDisplayableCells: every stored address gets its text; entries of the
        cache for other addresses stay as they were. */
    method UpdateAllDisplayableCells(fuel: nat)
      requires Terminates(tableModel.cells, fuel)
      modifies displayableTableModel
      ensures displayableTableModel.displayValues ==
        old(displayableTableModel.displayValues) + Displays(tableModel.cells, fuel)
    {
      var allCells := tableModel.GetAllCells();
      var evaluator := new CellEvaluator(tableModel);
      ghost var base := displayableTableModel.displayValues;
      var remaining := allCells.Keys;
      ghost var done := {};
      while remaining != {}
        invariant remaining <= allCells.Keys && done == allCells.Keys - remaining
        invariant displayableTableModel.displayValues == base + Shown(allCells, done, fuel)
        decreases remaining
      {
        var address :| address in remaining;
        var text := evaluator.Evaluate(allCells[address], fuel);
        ShownStep(base, allCells, done, address, fuel);
        displayableTableModel.SetDisplayValue(address, text.value);
        remaining := remaining - {address};
        done := done + {address};
      }
      assert done == allCells.Keys;
    }
  }
}
