/** The cell store (TableModel) and the display cache (DisplayableTableModel): each an
    object owning one map that its methods update in place. */
module TableModels {
  import opened Wrappers
  import opened Addresses
  import opened Formulas

  /** The raw cell values, keyed by address. */
  class TableModel {
    var cells: map<CellAddress, CellValue>

    constructor()
      ensures cells == map[]
    {
      cells := map[];
    }

    /** cells[address] = value: the entry is replaced or added, nothing else changes. */
    method SetCellValue(address: CellAddress, value: CellValue)
      modifies this
      ensures cells == old(cells)[address := value]
      ensures GetCellValue(address) == Some(value)
      ensures forall b :: b != address ==> GetCellValue(b) == old(GetCellValue(b))
    {
      cells := cells[address := value];
    }

    /** cells.erase(address): the entry goes, nothing else changes; erasing an absent
        address changes nothing at all. */
    method RemoveCellValue(address: CellAddress)
      modifies this
      ensures cells == old(cells) - {address}
      ensures GetCellValue(address) == None
      ensures forall b :: b != address ==> GetCellValue(b) == old(GetCellValue(b))
      ensures address !in old(cells) ==> cells == old(cells)
    {
      cells := cells - {address};
    }

    /** The stored value, None where the source returns a null pointer. */
    function GetCellValue(address: CellAddress): (r: Option<CellValue>)
      reads this
      ensures r.Some? <==> address in GetAllCells()
      ensures r.Some? ==> r.value == GetAllCells()[address]
    {
      if address in cells then Some(cells[address]) else None
    }

    function GetAllCells(): map<CellAddress, CellValue>
      reads this
    {
      cells
    }
  }

  /** The text shown for each address. */
  class DisplayableTableModel {
    var displayValues: map<CellAddress, string>

    constructor()
      ensures displayValues == map[]
    {
      displayValues := map[];
    }

    method SetDisplayValue(address: CellAddress, value: string)
      modifies this
      ensures displayValues == old(displayValues)[address := value]
      ensures GetDisplayValue(address) == Some(value)
      ensures forall b :: b != address ==> GetDisplayValue(b) == old(GetDisplayValue(b))
    {
      displayValues := displayValues[address := value];
    }

    method RemoveDisplayValue(address: CellAddress)
      modifies this
      ensures displayValues == old(displayValues) - {address}
      ensures GetDisplayValue(address) == None
      ensures forall b :: b != address ==> GetDisplayValue(b) == old(GetDisplayValue(b))
      ensures address !in old(displayValues) ==> displayValues == old(displayValues)
    {
      displayValues := displayValues - {address};
    }

    function GetDisplayValue(address: CellAddress): (r: Option<string>)
      reads this
      ensures r.Some? <==> address in GetAllDisplayValues()
      ensures r.Some? ==> r.value == GetAllDisplayValues()[address]
    {
      if address in displayValues then Some(displayValues[address]) else None
    }

    function GetAllDisplayValues(): map<CellAddress, string>
      reads this
    {
      displayValues
    }
  }
}
