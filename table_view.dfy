/** The layout helpers of the console view: row labels, the padding and truncation of a
    cell's text to its column width, the column widths, and the number of rows and
    columns shown. The drawing itself only writes these pieces to the console. */
module TableView {
  import opened Text
  import opened Addresses
  import opened Configuration

  // ---------------------------------------------------------------------------------
  // getRowLabel

  /** getRowLabel: the letters of a row, built from the last letter to the first. The
      source's do-while enters its body once before the first test; for a row that is
      not negative that test holds anyway, so a while loop does the same. */
  method GetRowLabel(rowIndex: nat) returns (rowLabel: string)
    ensures rowLabel == RowLabel(rowIndex)
  {
    rowLabel := "";
    var index: int := rowIndex;
    while index >= 0
      invariant index >= -1
      invariant Letters(index + 1) + rowLabel == RowLabel(rowIndex)
      decreases index + 1
    {
      assert Letters(index + 1) == Letters(index / 26) + [LetterChar(index % 26)];
      rowLabel := [LetterChar(index % 26)] + rowLabel;
      index := index / 26 - 1;
    }
    assert Letters(index + 1) == "";
  }

  // ---------------------------------------------------------------------------------
  // formatCellContent

  /** n spaces (none for n <= 0, as a setw or a counting loop gives). */
  function Spaces(n: int): (s: string)
    ensures |s| == if n <= 0 then 0 else n
    ensures forall i :: 0 <= i < |s| ==> s[i] == ' '
  {
    if n <= 0 then "" else Spaces(n - 1) + " "
  }

  /** C++ division by two, which truncates toward zero. */
  function HalfTowardZero(t: int): int
  {
    if t >= 0 then t / 2 else -((-t) / 2)
  }

  /** The text cut to the available width; a negative width converts to a huge length
      in substr, which keeps the whole text. */
  function Truncated(content: string, available: int): (t: string)
    ensures available >= 0 ==> |t| <= available || t == content
    ensures t == content || (0 <= available < |content| && t == content[..available])
  {
    if |content| > available && available >= 0 then content[..available] else content
  }

  /** The text placed in the available width by the alignment: setw pads on the right
      or the left, the centre alignment splits the padding with the extra space last. */
  function Padded(t: string, available: int, alignment: Alignment): string
  {
    var padding := available - |t|;
    match alignment
    case Left => t + Spaces(padding)
    case Right => Spaces(padding) + t
    case Center => Spaces(HalfTowardZero(padding)) + t + Spaces(padding - HalfTowardZero(padding))
  }

  /** The cell text formatCellContent produces: a space, the truncated text placed in the
      available width, a space. */
  function FormattedCell(content: string, width: int, alignment: Alignment): string
  {
    " " + Padded(Truncated(content, width - 2), width - 2, alignment) + " "
  }

  /** Where the truncated text starts in the formatted cell. */
  function ContentOffset(content: string, width: int, alignment: Alignment): nat
  {
    var padding := width - 2 - |Truncated(content, width - 2)|;
    match alignment
    case Left => 1
    case Right => 1 + (if padding <= 0 then 0 else padding)
    case Center => 1 + (if HalfTowardZero(padding) <= 0 then 0 else HalfTowardZero(padding))
  }

  /** formatCellContent: the setw of the left and right alignments and the two counting
      loops of the centre alignment. */
  method FormatCellContent(content: string, width: int, alignment: Alignment) returns (s: string)
    ensures s == FormattedCell(content, width, alignment)
  {
    var truncated := content;
    var availableWidth := width - 2;
    if |truncated| > availableWidth {
      truncated := if availableWidth >= 0 then truncated[..availableWidth] else truncated;
    }
    assert truncated == Truncated(content, availableWidth);
    s := " ";
    s := WriteAligned(s, truncated, availableWidth, alignment);
    s := s + " ";
  }

  /** The switch on the alignment, appending the text and its padding to the stream. */
  method WriteAligned(prefix: string, truncated: string, availableWidth: int, alignment: Alignment)
    returns (s: string)
    ensures s == prefix + Padded(truncated, availableWidth, alignment)
  {
    match alignment {
      case Left =>
        s := prefix + (truncated + Spaces(availableWidth - |truncated|));
      case Center =>
        var totalPadding := availableWidth - |truncated|;
        var leftPadding := HalfTowardZero(totalPadding);
        var rightPadding := totalPadding - leftPadding;
        s := AppendSpaces(prefix, leftPadding);
        s := s + truncated;
        s := AppendSpaces(s, rightPadding);
        assert s == prefix + (Spaces(leftPadding) + truncated + Spaces(rightPadding));
      case Right =>
        s := prefix + (Spaces(availableWidth - |truncated|) + truncated);
    }
  }

  /** The counting loop that writes n spaces. */
  method AppendSpaces(prefix: string, n: int) returns (s: string)
    ensures s == prefix + Spaces(n)
  {
    s := prefix;
    var i := 0;
    while i < n
      invariant 0 <= i <= if n < 0 then 0 else n
      invariant s == prefix + Spaces(i)
    {
      s := s + " ";
      i := i + 1;
    }
    assert Spaces(i) == Spaces(n);
  }

  /** A cell of width at least 2 is exactly that wide and starts and ends with a space. */
  lemma FormattedWidth(content: string, width: int, alignment: Alignment)
    requires width >= 2
    ensures |FormattedCell(content, width, alignment)| == width
    ensures FormattedCell(content, width, alignment)[0] == ' '
    ensures FormattedCell(content, width, alignment)[width - 1] == ' '
  {
    var t := Truncated(content, width - 2);
    var padding := width - 2 - |t|;
    assert padding >= 0;
    if alignment == Center {
      assert 0 <= HalfTowardZero(padding) <= padding;
    }
  }

  /** The text, cut to the available width, stands in the cell at its offset, and the
      offset leaves it inside the two border spaces. */
  lemma FormattedContent(content: string, width: int, alignment: Alignment)
    requires width >= 2
    ensures var t := if |content| > width - 2 then content[..width - 2] else content;
      var s := FormattedCell(content, width, alignment);
      var k := ContentOffset(content, width, alignment);
      1 <= k && k + |t| <= width - 1 && s[k..k + |t|] == t
  {
    var t := Truncated(content, width - 2);
    assert t == if |content| > width - 2 then content[..width - 2] else content;
    var o := PaddedContent(t, width - 2, alignment);
    assert ContentOffset(content, width, alignment) == o + 1;
    Framed(Padded(t, width - 2, alignment), o, |t|);
  }

  /** The padded text is exactly as wide as the space it fills and holds the text at its
      offset: none on the left, all the padding on the right, half of it in the centre. */
  lemma PaddedContent(t: string, available: int, alignment: Alignment) returns (o: nat)
    requires |t| <= available
    ensures |Padded(t, available, alignment)| == available
    ensures o + |t| <= available && Padded(t, available, alignment)[o..o + |t|] == t
    ensures o == match alignment
      case Left => 0
      case Right => available - |t|
      case Center => HalfTowardZero(available - |t|)
  {
    var padding := available - |t|;
    match alignment {
      case Left =>
        o := 0;
        Between("", t, Spaces(padding));
      case Right =>
        o := padding;
        Between(Spaces(padding), t, "");
      case Center =>
        o := HalfTowardZero(padding);
        Between(Spaces(o), t, Spaces(padding - o));
    }
  }

  /** The border spaces shift every position by one. */
  lemma Framed(p: string, k: nat, n: nat)
    requires k + n <= |p|
    ensures (" " + p + " ")[k + 1..k + 1 + n] == p[k..k + n]
  {
    var s := " " + p + " ";
    var framed, plain := s[k + 1..k + 1 + n], p[k..k + n];
    forall i | 0 <= i < n
      ensures framed[i] == plain[i]
    {
      assert s[k + 1 + i] == p[k + i];
    }
    assert framed == plain;
  }

  lemma Between(before: string, t: string, after: string)
    ensures (before + t + after)[|before|..|before| + |t|] == t
  {
  }

  /** Text longer than the available width fills it with its first width - 2 characters,
      whatever the alignment. */
  lemma LongContentCut(content: string, width: int, alignment: Alignment)
    requires width >= 2 && |content| > width - 2
    ensures FormattedCell(content, width, alignment) == " " + content[..width - 2] + " "
  {
    assert Spaces(0) == "";
  }

  /** Centred text gets (width - 2 - length) / 2 spaces before it and the rest after. */
  lemma CenterPadding(content: string, width: int)
    requires width >= 2 && |content| <= width - 2
    ensures var left := (width - 2 - |content|) / 2;
      FormattedCell(content, width, Center) ==
        " " + Spaces(left) + content + Spaces(width - 2 - |content| - left) + " "
  {
    var padding := width - 2 - |content|;
    assert Truncated(content, width - 2) == content;
    assert HalfTowardZero(padding) == padding / 2;
  }

  /** Left-aligned text is followed by its padding, right-aligned text preceded by it. */
  lemma SidePadding(content: string, width: int)
    requires width >= 2 && |content| <= width - 2
    ensures FormattedCell(content, width, Left) == " " + content + Spaces(width - 2 - |content|) + " "
    ensures FormattedCell(content, width, Right) == " " + Spaces(width - 2 - |content|) + content + " "
  {
  }

  /** A width below 2 leaves the text uncut between the two spaces. */
  lemma NarrowCell(content: string, width: int, alignment: Alignment)
    requires width < 2
    ensures FormattedCell(content, width, alignment) == " " + content + " "
  {
    var padding := width - 2 - |content|;
    assert HalfTowardZero(padding) <= 0 && padding - HalfTowardZero(padding) <= 0;
    assert Spaces(HalfTowardZero(padding)) == "" && Spaces(padding) == "";
    assert Spaces(padding - HalfTowardZero(padding)) == "";
  }

  // ---------------------------------------------------------------------------------
  // getVisibleRows, getVisibleCols

  /** getVisibleRows: the actual row count raised to initialTableRows and otherwise
      capped at maxTableRows. */
  function VisibleRows(config: TableConfiguration, actualRows: int): (r: int)
    ensures r == config.initialTableRows || r == config.maxTableRows || r == actualRows
  {
    if actualRows < config.initialTableRows then config.initialTableRows
    else if actualRows > config.maxTableRows then config.maxTableRows
    else actualRows
  }

  /** getVisibleCols as written: it clamps the column count with the row settings. */
  function VisibleColsAsWritten(config: TableConfiguration, actualCols: int): (r: int)
    ensures r == config.initialTableRows || r == config.maxTableRows || r == actualCols
  {
    if actualCols < config.initialTableRows then config.initialTableRows
    else if actualCols > config.maxTableRows then config.maxTableRows
    else actualCols
  }

  /** getVisibleCols as intended: the column count clamped by the column settings. */
  function VisibleCols(config: TableConfiguration, actualCols: int): (r: int)
    ensures r == config.initialTableCols || r == config.maxTableCols || r == actualCols
  {
    if actualCols < config.initialTableCols then config.initialTableCols
    else if actualCols > config.maxTableCols then config.maxTableCols
    else actualCols
  }

  /** With initial <= max the row count shown lies between them, is the actual count
      when that does, and showing it again changes nothing. */
  lemma VisibleRowsClamp(config: TableConfiguration, actualRows: int)
    requires config.initialTableRows <= config.maxTableRows
    ensures config.initialTableRows <= VisibleRows(config, actualRows) <= config.maxTableRows
    ensures config.initialTableRows <= actualRows <= config.maxTableRows <==>
      VisibleRows(config, actualRows) == actualRows
    ensures VisibleRows(config, VisibleRows(config, actualRows)) == VisibleRows(config, actualRows)
  {
  }

  /** The same for the corrected column count and the column settings. */
  lemma VisibleColsClamp(config: TableConfiguration, actualCols: int)
    requires config.initialTableCols <= config.maxTableCols
    ensures config.initialTableCols <= VisibleCols(config, actualCols) <= config.maxTableCols
    ensures config.initialTableCols <= actualCols <= config.maxTableCols <==>
      VisibleCols(config, actualCols) == actualCols
    ensures VisibleCols(config, VisibleCols(config, actualCols)) == VisibleCols(config, actualCols)
  {
  }

  /** As written, the column count follows the row settings: a table configured for 10
      rows and 5 columns shows 10 columns while it holds none. */
  lemma VisibleColsUsesRows(config: TableConfiguration)
    requires config.initialTableRows == 10 && config.maxTableRows == 50
    requires config.initialTableCols == 5 && config.maxTableCols == 26
    ensures VisibleColsAsWritten(config, 0) == 10
    ensures VisibleCols(config, 0) == 5
  {
  }

  /** As written, the column count equals the row count the same actual count would give. */
  lemma VisibleColsAsWrittenIsRows(config: TableConfiguration, actualCols: int)
    ensures VisibleColsAsWritten(config, actualCols) == VisibleRows(config, actualCols)
    ensures config.initialTableCols != config.initialTableRows ==>
      exists n :: VisibleColsAsWritten(config, n) != VisibleCols(config, n)
  {
    if config.initialTableCols != config.initialTableRows {
      var n := if config.initialTableCols < config.initialTableRows then config.initialTableCols
               else config.initialTableRows;
      assert VisibleColsAsWritten(config, n - 1) != VisibleCols(config, n - 1);
    }
  }

  // ---------------------------------------------------------------------------------
  // calculateColumnWidths

  /** getCellDisplayValue: the display text at a row and column, or "" for none. */
  function CellDisplayValue(display: map<CellAddress, string>, row: nat, col: nat): string
  {
    if CellAddress(row, col) in display then display[CellAddress(row, col)] else ""
  }

  /** The widest display text in the first rows of a column, and at least 3. */
  function ContentWidth(display: map<CellAddress, string>, rows: nat, col: nat): (w: int)
    ensures w >= 3
    ensures forall row :: 0 <= row < rows ==> w >= |CellDisplayValue(display, row, col)|
    ensures w == 3 || exists row :: 0 <= row < rows && w == |CellDisplayValue(display, row, col)|
  {
    if rows == 0 then 3
    else
      var w := ContentWidth(display, rows - 1, col);
      var here := |CellDisplayValue(display, rows - 1, col)|;
      if here > w then here else w
  }

  /** The width of one column: its widest text plus two with autoFit, otherwise
      visibleCellSymbols plus two. */
  function ColumnWidth(config: TableConfiguration, display: map<CellAddress, string>, visibleRows: nat, col: nat): int
  {
    if config.autoFit then ContentWidth(display, visibleRows, col) + 2
    else config.visibleCellSymbols + 2
  }

  /** calculateColumnWidths as written: it sizes the vector with getVisibleCols, which
      clamps the column count with the row settings. */
  method CalculateColumnWidths(config: TableConfiguration, display: map<CellAddress, string>,
                               actualRows: int, actualCols: int) returns (widths: seq<int>)
    requires VisibleRows(config, actualRows) >= 0 && VisibleColsAsWritten(config, actualCols) >= 0
    ensures |widths| == VisibleColsAsWritten(config, actualCols)
    ensures forall col :: 0 <= col < |widths| ==>
      widths[col] == ColumnWidth(config, display, VisibleRows(config, actualRows), col)
  {
    widths := ColumnWidths(config, display, VisibleRows(config, actualRows),
                           VisibleColsAsWritten(config, actualCols));
  }

  /** calculateColumnWidths with the corrected getVisibleCols. */
  method CalculateColumnWidthsCorrected(config: TableConfiguration, display: map<CellAddress, string>,
                                        actualRows: int, actualCols: int) returns (widths: seq<int>)
    requires VisibleRows(config, actualRows) >= 0 && VisibleCols(config, actualCols) >= 0
    ensures |widths| == VisibleCols(config, actualCols)
    ensures forall col :: 0 <= col < |widths| ==>
      widths[col] == ColumnWidth(config, display, VisibleRows(config, actualRows), col)
  {
    widths := ColumnWidths(config, display, VisibleRows(config, actualRows), VisibleCols(config, actualCols));
  }

  /** The body of calculateColumnWidths for a given number of shown rows and columns:
      a zeroed vector of one width per column, each filled in by the loop over the rows. */
  method ColumnWidths(config: TableConfiguration, display: map<CellAddress, string>,
                      visibleRows: nat, visibleCols: nat) returns (widths: seq<int>)
    ensures |widths| == visibleCols
    ensures forall col :: 0 <= col < |widths| ==>
      widths[col] == ColumnWidth(config, display, visibleRows, col)
  {
    widths := seq(visibleCols, _ => 0);
    if config.autoFit {
      var col := 0;
      while col < visibleCols
        invariant 0 <= col <= visibleCols && |widths| == visibleCols
        invariant forall c :: 0 <= c < col ==> widths[c] == ColumnWidth(config, display, visibleRows, c)
      {
        var maxWidth := 3;
        var row := 0;
        while row < visibleRows
          invariant 0 <= row <= visibleRows
          invariant maxWidth == ContentWidth(display, row, col)
        {
          var content := CellDisplayValue(display, row, col);
          maxWidth := if |content| > maxWidth then |content| else maxWidth;
          row := row + 1;
        }
        widths := widths[col := maxWidth + 2];
        col := col + 1;
      }
    } else {
      var fixedWidth := config.visibleCellSymbols + 2;
      var col := 0;
      while col < visibleCols
        invariant 0 <= col <= visibleCols && |widths| == visibleCols
        invariant forall c :: 0 <= c < col ==> widths[c] == fixedWidth
      {
        widths := widths[col := fixedWidth];
        col := col + 1;
      }
    }
  }

  /** Fixed widths: every column is visibleCellSymbols + 2 wide. */
  lemma FixedColumnWidth(config: TableConfiguration, display: map<CellAddress, string>, visibleRows: nat, col: nat)
    requires !config.autoFit
    ensures ColumnWidth(config, display, visibleRows, col) == config.visibleCellSymbols + 2
  {
  }

  /** autoFit: a column is at least 5 wide and two wider than every text shown in it, and
      no wider than it needs to be. */
  lemma AutoFitColumnWidth(config: TableConfiguration, display: map<CellAddress, string>, visibleRows: nat, col: nat)
    requires config.autoFit
    ensures ColumnWidth(config, display, visibleRows, col) >= 5
    ensures forall row :: 0 <= row < visibleRows ==>
      ColumnWidth(config, display, visibleRows, col) >= |CellDisplayValue(display, row, col)| + 2
    ensures ColumnWidth(config, display, visibleRows, col) == 5 ||
      exists row :: 0 <= row < visibleRows &&
        ColumnWidth(config, display, visibleRows, col) == |CellDisplayValue(display, row, col)| + 2
  {
  }

  /** Every cell of an autoFit column fits it: formatted to the column width, its text is
      not cut. */
  lemma AutoFitNoCut(config: TableConfiguration, display: map<CellAddress, string>, visibleRows: nat,
                     row: nat, col: nat, alignment: Alignment)
    requires config.autoFit && row < visibleRows
    ensures var w := ColumnWidth(config, display, visibleRows, col);
      var s := FormattedCell(CellDisplayValue(display, row, col), w, alignment);
      var k := ContentOffset(CellDisplayValue(display, row, col), w, alignment);
      |s| == w && s[k..k + |CellDisplayValue(display, row, col)|] == CellDisplayValue(display, row, col)
  {
    var w := ColumnWidth(config, display, visibleRows, col);
    FormattedWidth(CellDisplayValue(display, row, col), w, alignment);
    FormattedContent(CellDisplayValue(display, row, col), w, alignment);
  }
}
