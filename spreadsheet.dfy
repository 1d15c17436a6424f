/** Workbooks as the file service sees them through Apache POI: sheets of
    rows of typed cells. Parsing and writing the binary formats are outside
    the model; a workbook here is the value a successful parse yields. */
module Spreadsheet {
  import opened Wrappers

  /** A floating-point cell value, kept as its IEEE 754 bits. How Java renders
      it (String.valueOf(double), or Date.toString() for a date) is not
      interpreted. `ReencodedDate(d)` is the serial POI stores when the date
      that serial `d` reads as (DateUtil.getJavaDate) is written into a cell
      of a new workbook (DateUtil.getExcelDate); that conversion is not
      interpreted either. */
  datatype Double = Double(bits: bv64) | ReencodedDate(source: Double)

  /** The value of a cell, by POI cell type. `dateFormatted` says whether the
      cell's style carries a date number format (DateUtil.isCellDateFormatted).
      Formula cells keep only their formula text. */
  datatype CellValue =
    | StringValue(text: string)
    | NumericValue(number: Double, dateFormatted: bool)
    | BooleanValue(flag: bool)
    | FormulaValue(formula: string)
    | BlankValue
    | ErrorValue(code: int)

  /** A cell: its value and its style, an opaque handle. */
  datatype Cell = Cell(value: CellValue, style: nat)

  /** A row present in a sheet: its 0-based row index and its cells indexed by
      column, `cells[k]` being column k; `|cells|` is POI's getLastCellNum()
      (one past the last cell), and `None` stands for a column with no cell. */
  datatype Row = Row(index: nat, cells: seq<Option<Cell>>)

  /** A sheet: its name and the rows present in it, in ascending row index. */
  datatype Sheet = Sheet(name: string, rows: seq<Row>)

  type Workbook = seq<Sheet>

  /** The display string of a cell. `NumberText` and `DateText` stand for
      Java's renderings of a number and of a date, which the model leaves
      uninterpreted. */
  datatype CellText = Text(text: string) | NumberText(number: Double) | DateText(date: Double)

  /** FileService.getCellValueAsString. */
  function CellValueAsString(cell: Option<Cell>): CellText
  {
    match cell
    case None => Text("")
    case Some(c) =>
      match c.value
      case StringValue(s) => Text(s)
      case NumericValue(d, isDate) => if isDate then DateText(d) else NumberText(d)
      case BooleanValue(b) => Text(if b then "true" else "false")
      case FormulaValue(f) => Text(f)
      case _ => Text("")
  }

  /** A cell displays as the empty string exactly when it is missing, blank
      or an error, or holds an empty string or an empty formula. */
  lemma EmptyDisplayExactly(cell: Option<Cell>)
    ensures CellValueAsString(cell) == Text("") <==>
      cell.None? || cell.value.value.BlankValue? || cell.value.value.ErrorValue? ||
      cell.value.value == StringValue("") || cell.value.value == FormulaValue("")
  {
  }

  /** Only numeric cells are rendered by Java rather than shown as text: as a
      date exactly when the cell is date-formatted, as a number otherwise,
      and in both cases carrying the cell's own number. */
  lemma NumericDisplayExactly(cell: Option<Cell>)
    ensures !CellValueAsString(cell).Text? <==> cell.Some? && cell.value.value.NumericValue?
    ensures CellValueAsString(cell).DateText? <==>
      cell.Some? && cell.value.value.NumericValue? && cell.value.value.dateFormatted
    ensures CellValueAsString(cell).NumberText? ==> CellValueAsString(cell).number == cell.value.value.number
    ensures CellValueAsString(cell).DateText? ==> CellValueAsString(cell).date == cell.value.value.number
  {
  }

  /** Text cells show their own text, and a boolean shows as "true" or
      "false". */
  lemma TextDisplayFacts(cell: Option<Cell>)
    ensures cell.Some? && cell.value.value.StringValue? ==> CellValueAsString(cell) == Text(cell.value.value.text)
    ensures cell.Some? && cell.value.value.FormulaValue? ==> CellValueAsString(cell) == Text(cell.value.value.formula)
    ensures cell.Some? && cell.value.value.BooleanValue? ==>
      CellValueAsString(cell).Text? && CellValueAsString(cell).text in {"true", "false"} &&
      (CellValueAsString(cell).text == "true" <==> cell.value.value.flag)
  {
  }

  /** A numeric cell whose style carries a date number format. */
  predicate IsDateCell(c: Cell)
  {
    c.value.NumericValue? && c.value.dateFormatted
  }

  /** The cell copySheet creates for `c`: the same value for the string,
      boolean and formula types and for a plain number, a blank cell for any
      other type, and the same style in every case. A date-formatted number
      is read as a java.util.Date and written back, so the copy holds the
      re-encoded serial. */
  function CopyCell(c: Cell): (r: Cell)
    ensures r.style == c.style
    ensures r.value.BlankValue? <==> c.value.BlankValue? || c.value.ErrorValue?
    ensures r.value.NumericValue? <==> c.value.NumericValue?
    ensures r.value.NumericValue? ==>
      r.value.dateFormatted == c.value.dateFormatted &&
      r.value.number == if c.value.dateFormatted then ReencodedDate(c.value.number) else c.value.number
    ensures !r.value.BlankValue? && !r.value.NumericValue? ==> r.value == c.value
  {
    match c.value
    case StringValue(_) => c
    case NumericValue(d, isDate) => if isDate then Cell(NumericValue(ReencodedDate(d), true), c.style) else c
    case BooleanValue(_) => c
    case FormulaValue(_) => c
    case _ => Cell(BlankValue, c.style)
  }

  function CopySlot(slot: Option<Cell>): Option<Cell>
  {
    match slot
    case None => None
    case Some(c) => Some(CopyCell(c))
  }

  /** The row copySheet creates for `row`: the same row index and a copied
      cell in exactly the columns that hold a cell. */
  function CopyRow(row: Row): (r: Row)
    ensures r.index == row.index && |r.cells| == |row.cells|
    ensures forall k :: 0 <= k < |row.cells| ==>
      (r.cells[k].Some? <==> row.cells[k].Some?) &&
      (row.cells[k].Some? ==> r.cells[k].value == CopyCell(row.cells[k].value))
  {
    Row(row.index, seq(|row.cells|, k requires 0 <= k < |row.cells| => CopySlot(row.cells[k])))
  }

  /** Reading a copied cell back gives its original type and value for the
      string, boolean and formula types and for a plain number, and copying
      such a cell twice changes nothing more than copying it once. A date
      cell stays a date cell holding the re-encoded serial. */
  lemma CopyCellRoundTrip(c: Cell)
    ensures !c.value.BlankValue? && !c.value.ErrorValue? && !IsDateCell(c) ==> CopyCell(c) == c
    ensures !IsDateCell(c) ==> CopyCell(CopyCell(c)) == CopyCell(c)
    ensures IsDateCell(c) ==> IsDateCell(CopyCell(c)) && CopyCell(c).value.number == ReencodedDate(c.value.number)
  {
  }

  /** Copying a cell other than a date cell never changes its display
      string; a copied date cell displays the date of the re-encoded serial. */
  lemma CopyKeepsDisplay(c: Cell)
    ensures !IsDateCell(c) ==> CellValueAsString(Some(CopyCell(c))) == CellValueAsString(Some(c))
    ensures IsDateCell(c) ==> CellValueAsString(Some(CopyCell(c))) == DateText(ReencodedDate(c.value.number))
  {
  }

  /** FileService.copySheet: every row of the source, in order, copied into
      the new sheet under its own row index, every cell under its own column
      index. */
  method CopySheet(source: Sheet) returns (rows: seq<Row>)
    ensures |rows| == |source.rows|
    ensures forall i :: 0 <= i < |rows| ==> rows[i] == CopyRow(source.rows[i])
  {
    rows := [];
    var i := 0;
    while i < |source.rows|
      invariant 0 <= i <= |source.rows|
      invariant |rows| == i
      invariant forall k :: 0 <= k < i ==> rows[k] == CopyRow(source.rows[k])
    {
      var sourceRow := source.rows[i];
      var cells: seq<Option<Cell>> := [];
      var j := 0;
      while j < |sourceRow.cells|
        invariant 0 <= j <= |sourceRow.cells|
        invariant |cells| == j
        invariant forall k :: 0 <= k < j ==> cells[k] == CopySlot(sourceRow.cells[k])
      {
        match sourceRow.cells[j] {
          case None =>
            cells := cells + [None];
          case Some(sourceCell) =>
            cells := cells + [Some(CopyCell(sourceCell))];
        }
        j := j + 1;
      }
      assert cells == CopyRow(sourceRow).cells;
      rows := rows + [Row(sourceRow.index, cells)];
      i := i + 1;
    }
  }

  /** A row holds a cell in some column. */
  predicate RowHoldsCell(row: Row)
  {
    exists k :: 0 <= k < |row.cells| && row.cells[k].Some?
  }

  /** Some row of a sheet holds a cell. */
  predicate HoldsCell(rows: seq<Row>)
  {
    exists i :: 0 <= i < |rows| && RowHoldsCell(rows[i])
  }

  /** The column of a row's first cell, if the row has one. */
  function FirstCell(cells: seq<Option<Cell>>): (r: Option<nat>)
    ensures r.Some? ==> r.value < |cells| && cells[r.value].Some? && forall k :: 0 <= k < r.value ==> cells[k].None?
    ensures r.None? ==> forall k :: 0 <= k < |cells| ==> cells[k].None?
  {
    if cells == [] then None
    else if cells[0].Some? then Some(0)
    else
      match FirstCell(cells[1..])
      case None => None
      case Some(k) => Some(k + 1)
  }

  /** The style a cell created in a new workbook carries until one is set:
      the workbook's default style, index 0. */
  const DefaultStyle: nat := 0

  /** A cell value under the default style, which has no date number format:
      a number is no longer date-formatted. */
  function Undated(v: CellValue): (r: CellValue)
    ensures r.NumericValue? <==> v.NumericValue?
    ensures r.NumericValue? ==> r.number == v.number && !r.dateFormatted
    ensures !v.NumericValue? ==> r == v
  {
    if v.NumericValue? then NumericValue(v.number, false) else v
  }

  /** The rows copySheet has created when it stops, and whether it stopped
      by throwing. */
  datatype PartialCopy = PartialCopy(rows: seq<Row>, thrown: bool)

  /** copySheet as written, when every source cell carries a style of its
      own workbook and the target is another workbook: setCellStyle refuses
      a foreign style, so the copy throws right after creating the first
      cell and setting its value, which is left under the default style.
      Rows without cells before it are copied whole. */
  function CopyRowsAsWritten(rows: seq<Row>): PartialCopy
  {
    if rows == [] then PartialCopy([], false)
    else
      var row := rows[0];
      match FirstCell(row.cells)
      case None =>
        var rest := CopyRowsAsWritten(rows[1..]);
        PartialCopy([CopyRow(row)] + rest.rows, rest.thrown)
      case Some(k) =>
        var blanks: seq<Option<Cell>> := seq(k, _ => None);
        PartialCopy([Row(row.index, blanks + [Some(Cell(Undated(CopyCell(row.cells[k].value).value), DefaultStyle))])], true)
  }

  lemma HoldsCellCons(row: Row, rest: seq<Row>)
    ensures HoldsCell([row] + rest) <==> RowHoldsCell(row) || HoldsCell(rest)
  {
    var all := [row] + rest;
    if HoldsCell(all) {
      var i :| 0 <= i < |all| && RowHoldsCell(all[i]);
      if i > 0 {
        assert rest[i - 1] == all[i];
      }
    }
    if HoldsCell(rest) {
      var i :| 0 <= i < |rest| && RowHoldsCell(rest[i]);
      assert all[i + 1] == rest[i];
    }
    if RowHoldsCell(row) {
      assert all[0] == row;
    }
  }

  /** The as-written copy throws exactly when the sheet holds a cell. */
  lemma {:induction false} CopyRowsAsWrittenThrows(rows: seq<Row>)
    ensures CopyRowsAsWritten(rows).thrown <==> HoldsCell(rows)
    decreases |rows|
  {
    if rows != [] {
      assert rows == [rows[0]] + rows[1..];
      HoldsCellCons(rows[0], rows[1..]);
      if FirstCell(rows[0].cells).None? {
        assert !RowHoldsCell(rows[0]);
        CopyRowsAsWrittenThrows(rows[1..]);
      } else {
        assert RowHoldsCell(rows[0]);
      }
    }
  }

  /** A sheet without cells is copied as intended. */
  lemma {:induction false} CopyRowsAsWrittenWithoutCells(rows: seq<Row>)
    requires !HoldsCell(rows)
    ensures |CopyRowsAsWritten(rows).rows| == |rows|
    ensures forall i :: 0 <= i < |rows| ==> CopyRowsAsWritten(rows).rows[i] == CopyRow(rows[i])
    decreases |rows|
  {
    if rows != [] {
      var row := rows[0];
      assert rows == [row] + rows[1..];
      HoldsCellCons(row, rows[1..]);
      CopyRowsAsWrittenWithoutCells(rows[1..]);
      var rest := CopyRowsAsWritten(rows[1..]).rows;
      var r := CopyRowsAsWritten(rows).rows;
      assert r == [CopyRow(row)] + rest;
      forall i | 1 <= i < |rows|
        ensures r[i] == CopyRow(rows[i])
      {
        assert r[i] == rest[i - 1];
        assert rows[1..][i - 1] == rows[i];
      }
    }
  }

  /** A row whose only cell is its last slot, under the default style. */
  predicate OnlyLastCellDefault(row: Row)
  {
    var cells := row.cells;
    cells != [] && cells[|cells| - 1].Some? && cells[|cells| - 1].value.style == DefaultStyle &&
    forall k :: 0 <= k < |cells| - 1 ==> cells[k].None?
  }

  /** Rows holding exactly one cell, the default-styled last slot of the last row. */
  predicate KeepsOneCell(rows: seq<Row>)
  {
    rows != [] && !HoldsCell(rows[..|rows| - 1]) && OnlyLastCellDefault(rows[|rows| - 1])
  }

  lemma KeepsOneCellCons(row: Row, rest: seq<Row>)
    requires !RowHoldsCell(row) && KeepsOneCell(rest)
    ensures KeepsOneCell([row] + rest)
  {
    var r := [row] + rest;
    assert r[..|r| - 1] == [row] + rest[..|rest| - 1];
    HoldsCellCons(row, rest[..|rest| - 1]);
    assert r[|r| - 1] == rest[|rest| - 1];
  }

  /** Of a sheet with cells only one cell survives the as-written copy: the
      first, alone in the last row created, under the default style. */
  lemma {:induction false} CopyRowsAsWrittenKeepsOneCell(rows: seq<Row>)
    requires HoldsCell(rows)
    ensures KeepsOneCell(CopyRowsAsWritten(rows).rows)
    decreases |rows|
  {
    var row := rows[0];
    assert rows == [row] + rows[1..];
    HoldsCellCons(row, rows[1..]);
    if FirstCell(row.cells).None? {
      assert !RowHoldsCell(row);
      assert !RowHoldsCell(CopyRow(row));
      CopyRowsAsWrittenKeepsOneCell(rows[1..]);
      KeepsOneCellCons(CopyRow(row), CopyRowsAsWritten(rows[1..]).rows);
    } else {
      var r := CopyRowsAsWritten(rows).rows;
      assert r[..|r| - 1] == [];
    }
  }

  /** The first row of a sheet that holds a cell. */
  function FirstRowWithCell(rows: seq<Row>): (i: nat)
    requires HoldsCell(rows)
    ensures i < |rows| && RowHoldsCell(rows[i]) && !HoldsCell(rows[..i])
    decreases |rows|
  {
    assert rows == [rows[0]] + rows[1..];
    HoldsCellCons(rows[0], rows[1..]);
    if RowHoldsCell(rows[0]) then
      assert rows[..0] == [];
      0
    else
      var j := FirstRowWithCell(rows[1..]);
      assert rows[..j + 1] == [rows[0]] + rows[1..][..j];
      HoldsCellCons(rows[0], rows[1..][..j]);
      j + 1
  }

  /** `dst` is `src` reduced to its first cell: the same row index, no slot
      after that cell's column, no cell before it, and there the copied value
      under the default style. */
  predicate FirstCellAlone(src: Row, dst: Row)
  {
    match FirstCell(src.cells)
    case None => false
    case Some(k) =>
      dst.index == src.index && |dst.cells| == k + 1 &&
      (forall j :: 0 <= j < k ==> dst.cells[j].None?) &&
      dst.cells[k] == Some(Cell(Undated(CopyCell(src.cells[k].value).value), DefaultStyle))
  }

  /** The first `n` rows of `r` are the intended copies of those of `rows`. */
  predicate CopiedThrough(rows: seq<Row>, r: seq<Row>, n: nat)
  {
    n <= |rows| && n <= |r| && forall j :: 0 <= j < n ==> r[j] == CopyRow(rows[j])
  }

  lemma CopiedThroughCons(row: Row, rows: seq<Row>, rest: seq<Row>, n: nat)
    requires CopiedThrough(rows, rest, n)
    ensures CopiedThrough([row] + rows, [CopyRow(row)] + rest, n + 1)
  {
    var a := [row] + rows;
    var b := [CopyRow(row)] + rest;
    forall j | 1 <= j < n + 1
      ensures b[j] == CopyRow(a[j])
    {
      assert b[j] == rest[j - 1] && a[j] == rows[j - 1];
    }
  }

  /** The cell that survives the as-written copy is the sheet's first: the
      rows before the first row holding a cell are copied whole, and the last
      row created is that row reduced to its first cell. */
  lemma {:induction false} CopyRowsAsWrittenFirstCell(rows: seq<Row>)
    requires HoldsCell(rows)
    ensures |CopyRowsAsWritten(rows).rows| == FirstRowWithCell(rows) + 1
    ensures CopiedThrough(rows, CopyRowsAsWritten(rows).rows, FirstRowWithCell(rows))
    ensures FirstCellAlone(rows[FirstRowWithCell(rows)], CopyRowsAsWritten(rows).rows[FirstRowWithCell(rows)])
    decreases |rows|
  {
    var row := rows[0];
    assert rows == [row] + rows[1..];
    HoldsCellCons(row, rows[1..]);
    if FirstCell(row.cells).None? {
      assert !RowHoldsCell(row);
      CopyRowsAsWrittenFirstCell(rows[1..]);
      var i' := FirstRowWithCell(rows[1..]);
      assert FirstRowWithCell(rows) == i' + 1;
      var rest := CopyRowsAsWritten(rows[1..]).rows;
      assert CopyRowsAsWritten(rows).rows == [CopyRow(row)] + rest;
      CopiedThroughCons(row, rows[1..], rest, i');
      assert ([CopyRow(row)] + rest)[i' + 1] == rest[i'];
      assert rows[i' + 1] == rows[1..][i'];
    } else {
      assert RowHoldsCell(row);
      assert FirstRowWithCell(rows) == 0;
    }
  }
}
