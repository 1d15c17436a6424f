/** The spreadsheet-content operation of FileService: every row of every
    sheet of every spreadsheet file in scope, flattened into one record per
    row that carries the file, the sheet, the 1-based row number and one
    "ColumnN" entry per cell position. */
module Flatten {
  import opened Wrappers
  import opened Strings
  import opened Seqs
  import opened Spreadsheet
  import opened FileTree
  import opened TreeWalker
  import opened Describe

  /** The key readExcelFileContent stores the k-th cell (1-based) under. */
  function ColumnKey(k: nat): string
  {
    "Column" + DecimalString(k)
  }

  /** Different positions get different keys, so no cell overwrites another. */
  lemma ColumnKeyInjective(a: nat, b: nat)
    requires ColumnKey(a) == ColumnKey(b)
    ensures a == b
  {
    assert ColumnKey(a)[6..] == DecimalString(a);
    assert ColumnKey(b)[6..] == DecimalString(b);
    DecimalInjective(a, b);
  }

  /** No column key is one of the four fixed keys of a row map, so keeping
      those four as record fields loses nothing. */
  lemma ColumnKeyIsNotFixedKey(k: nat)
    ensures ColumnKey(k) != "FileName" && ColumnKey(k) != "RelativePath"
    ensures ColumnKey(k) != "SheetName" && ColumnKey(k) != "RowNumber"
  {
    assert ColumnKey(k)[0] == 'C';
  }

  /** The column entries of a row: position k (1-based) holds the display
      string of cell k - 1, for every position up to getLastCellNum(). */
  function Columns(cells: seq<Option<Cell>>): map<string, CellText>
  {
    if cells == [] then map[]
    else Columns(cells[..|cells| - 1])[ColumnKey(|cells|) := CellValueAsString(cells[|cells| - 1])]
  }

  /** The column map has exactly the keys Column1 .. ColumnN, N the number of
      cell positions, and ColumnK holds the display string of the K-th cell. */
  lemma ColumnsExactly(cells: seq<Option<Cell>>)
    ensures forall key :: key in Columns(cells) ==> exists k :: 1 <= k <= |cells| && key == ColumnKey(k)
    ensures forall k :: 1 <= k <= |cells| ==>
      ColumnKey(k) in Columns(cells) && Columns(cells)[ColumnKey(k)] == CellValueAsString(cells[k - 1])
    ensures |Columns(cells)| == |cells|
  {
    forall key | key in Columns(cells)
      ensures exists k :: 1 <= k <= |cells| && key == ColumnKey(k)
    {
      ColumnsKey(cells, key);
    }
    forall k | 1 <= k <= |cells|
      ensures ColumnKey(k) in Columns(cells) && Columns(cells)[ColumnKey(k)] == CellValueAsString(cells[k - 1])
    {
      ColumnsValue(cells, k);
    }
    ColumnsCount(cells);
  }

  /** The keys of the column map are column keys of positions 1 .. N. */
  lemma {:induction false} ColumnsKey(cells: seq<Option<Cell>>, key: string)
    ensures key in Columns(cells) ==> exists k :: 1 <= k <= |cells| && key == ColumnKey(k)
    decreases |cells|
  {
    if cells != [] && key != ColumnKey(|cells|) {
      ColumnsKey(cells[..|cells| - 1], key);
    }
  }

  /** Position k holds the display string of cell k - 1. */
  lemma {:induction false} ColumnsValue(cells: seq<Option<Cell>>, k: nat)
    requires 1 <= k <= |cells|
    ensures ColumnKey(k) in Columns(cells) && Columns(cells)[ColumnKey(k)] == CellValueAsString(cells[k - 1])
    decreases |cells|
  {
    var n := |cells|;
    if k < n {
      ColumnsValue(cells[..n - 1], k);
      if ColumnKey(k) == ColumnKey(n) {
        ColumnKeyInjective(k, n);
      }
    }
  }

  /** One entry per position: no two positions share a key. */
  lemma {:induction false} ColumnsCount(cells: seq<Option<Cell>>)
    ensures |Columns(cells)| == |cells|
    decreases |cells|
  {
    if cells != [] {
      var n := |cells|;
      var prefix := cells[..n - 1];
      ColumnsCount(prefix);
      ColumnsKey(prefix, ColumnKey(n));
      if ColumnKey(n) in Columns(prefix) {
        var k :| 1 <= k <= n - 1 && ColumnKey(n) == ColumnKey(k);
        ColumnKeyInjective(n, k);
      }
    }
  }

  /** The map readExcelFileContent builds for one row, without the column
      entries' HashMap order (which a map does not have). */
  datatype RowRecord = RowRecord(
    fileName: string, relativePath: string, sheetName: string,
    rowNumber: nat, columns: map<string, CellText>)

  function RowRecordOf(fileName: string, relativePath: string, sheetName: string, row: Row): RowRecord
  {
    RowRecord(fileName, relativePath, sheetName, row.index + 1, Columns(row.cells))
  }

  /** The records of a sheet's rows, in row order. */
  function SheetRows(fileName: string, relativePath: string, sheetName: string, rows: seq<Row>): seq<RowRecord>
  {
    if rows == [] then [] else
      var last := rows[|rows| - 1];
      SheetRows(fileName, relativePath, sheetName, rows[..|rows| - 1]) + [RowRecordOf(fileName, relativePath, sheetName, last)]
  }

  /** The records of a workbook's sheets, sheet after sheet. */
  function BookRows(fileName: string, relativePath: string, sheets: seq<Sheet>): seq<RowRecord>
  {
    if sheets == [] then [] else
      var last := sheets[|sheets| - 1];
      BookRows(fileName, relativePath, sheets[..|sheets| - 1]) + SheetRows(fileName, relativePath, last.name, last.rows)
  }

  /** What readExcelFileContent adds for a visited entry: the rows of the
      workbook when the name selects a workbook format and the file parses;
      nothing when it does not parse (the exception is swallowed). */
  function FileRows(v: Visit): seq<RowRecord>
  {
    if v.entry.File? && IsExcelFile(v.entry.name) && v.entry.book.Some? then
      BookRows(v.entry.name, v.RelativePath(), v.entry.book.value)
    else []
  }

  /** One record per row, the i-th for the i-th row, with its row number one
      more than the row's index. */
  lemma {:induction false} SheetRowsPointwise(fileName: string, relativePath: string, sheetName: string, rows: seq<Row>)
    ensures |SheetRows(fileName, relativePath, sheetName, rows)| == |rows|
    ensures forall i :: 0 <= i < |rows| ==>
      SheetRows(fileName, relativePath, sheetName, rows)[i] == RowRecordOf(fileName, relativePath, sheetName, rows[i])
    decreases |rows|
  {
    if rows != [] {
      SheetRowsPointwise(fileName, relativePath, sheetName, rows[..|rows| - 1]);
    }
  }

  /** A record of a sheet is the record of one of its rows, and every row
      gives one. */
  lemma SheetRowsMembership(fileName: string, relativePath: string, sheetName: string, rows: seq<Row>, r: RowRecord)
    ensures r in SheetRows(fileName, relativePath, sheetName, rows) <==>
      exists j :: 0 <= j < |rows| && r == RowRecordOf(fileName, relativePath, sheetName, rows[j])
  {
    SheetRowsPointwise(fileName, relativePath, sheetName, rows);
    if r in SheetRows(fileName, relativePath, sheetName, rows) {
      var j :| 0 <= j < |rows| && SheetRows(fileName, relativePath, sheetName, rows)[j] == r;
    }
  }

  /** A record of a workbook is a record of one of its sheets, and every
      record of every sheet is one of the workbook's. */
  lemma {:induction false} BookRowsMembership(fileName: string, relativePath: string, sheets: seq<Sheet>, r: RowRecord)
    ensures r in BookRows(fileName, relativePath, sheets) <==>
      exists i :: 0 <= i < |sheets| && r in SheetRows(fileName, relativePath, sheets[i].name, sheets[i].rows)
    decreases |sheets|
  {
    if sheets != [] {
      var n := |sheets|;
      var prefix := sheets[..n - 1];
      BookRowsMembership(fileName, relativePath, prefix, r);
      if exists i :: 0 <= i < n && r in SheetRows(fileName, relativePath, sheets[i].name, sheets[i].rows) {
        var i :| 0 <= i < n && r in SheetRows(fileName, relativePath, sheets[i].name, sheets[i].rows);
        if i < n - 1 {
          assert prefix[i] == sheets[i];
        }
      }
      if exists i :: 0 <= i < n - 1 && r in SheetRows(fileName, relativePath, prefix[i].name, prefix[i].rows) {
        var i :| 0 <= i < n - 1 && r in SheetRows(fileName, relativePath, prefix[i].name, prefix[i].rows);
        assert sheets[i] == prefix[i];
      }
    }
  }

  /** The total number of rows in the sheets of a workbook. */
  function RowCount(sheets: seq<Sheet>): nat
  {
    if sheets == [] then 0 else RowCount(sheets[..|sheets| - 1]) + |sheets[|sheets| - 1].rows|
  }

  /** A workbook gives exactly as many records as it has rows. */
  lemma {:induction false} BookRowsCount(fileName: string, relativePath: string, sheets: seq<Sheet>)
    ensures |BookRows(fileName, relativePath, sheets)| == RowCount(sheets)
    decreases |sheets|
  {
    if sheets != [] {
      var last := sheets[|sheets| - 1];
      BookRowsCount(fileName, relativePath, sheets[..|sheets| - 1]);
      SheetRowsPointwise(fileName, relativePath, last.name, last.rows);
    }
  }

  /** The column entries readExcelFileContent puts into the map of one row. */
  method RowColumns(row: Row) returns (columns: map<string, CellText>)
    ensures columns == Columns(row.cells)
  {
    columns := map[];
    var lastCellNum := |row.cells|;
    if lastCellNum > 0 {
      var cellIndex := 0;
      while cellIndex < lastCellNum
        invariant 0 <= cellIndex <= lastCellNum
        invariant columns == Columns(row.cells[..cellIndex])
      {
        assert row.cells[..cellIndex + 1][..cellIndex] == row.cells[..cellIndex];
        columns := columns[ColumnKey(cellIndex + 1) := CellValueAsString(row.cells[cellIndex])];
        cellIndex := cellIndex + 1;
      }
      assert row.cells[..cellIndex] == row.cells;
    }
  }

  /** FileService.readExcelFileContent: open the workbook in the format the
      name selects and append one record per row, sheet after sheet. */
  method ReadExcelFileContent(v: Visit, acc: seq<RowRecord>) returns (out: seq<RowRecord>)
    ensures out == acc + FileRows(v)
  {
    out := acc;
    if !v.entry.File? || !IsExcelFile(v.entry.name) || v.entry.book.None? {
      return;
    }
    var relativePath := v.RelativePath();
    var fileName := v.entry.name;
    var workbook := v.entry.book.value;
    var sheetIndex := 0;
    while sheetIndex < |workbook|
      invariant 0 <= sheetIndex <= |workbook|
      invariant out == acc + BookRows(fileName, relativePath, workbook[..sheetIndex])
    {
      var sheet := workbook[sheetIndex];
      ghost var kept := BookRows(fileName, relativePath, workbook[..sheetIndex]);
      out := ReadSheetRows(fileName, relativePath, sheet, out);
      assert out == acc + BookRows(fileName, relativePath, workbook[..sheetIndex + 1]) by {
        assert workbook[..sheetIndex + 1][..sheetIndex] == workbook[..sheetIndex];
        ConcatAssoc(acc, kept, SheetRows(fileName, relativePath, sheet.name, sheet.rows));
      }
      sheetIndex := sheetIndex + 1;
    }
    assert workbook[..sheetIndex] == workbook;
  }

  /** The inner loop of readExcelFileContent: one record per row of a sheet. */
  method ReadSheetRows(fileName: string, relativePath: string, sheet: Sheet, acc: seq<RowRecord>) returns (out: seq<RowRecord>)
    ensures out == acc + SheetRows(fileName, relativePath, sheet.name, sheet.rows)
  {
    out := acc;
    var j := 0;
    while j < |sheet.rows|
      invariant 0 <= j <= |sheet.rows|
      invariant out == acc + SheetRows(fileName, relativePath, sheet.name, sheet.rows[..j])
    {
      var row := sheet.rows[j];
      var columns := RowColumns(row);
      assert sheet.rows[..j + 1][..j] == sheet.rows[..j];
      out := out + [RowRecord(fileName, relativePath, sheet.name, row.index + 1, columns)];
      j := j + 1;
    }
    assert sheet.rows[..j] == sheet.rows;
  }

  /** FileService.processAllExcelFilesContent: the records of every
      spreadsheet file below the directory, in walk order. */
  method ProcessAllExcelFilesContent(d: Entry, dir: string, acc: seq<RowRecord>) returns (out: seq<RowRecord>)
    requires d.Dir?
    ensures out == acc + FlatMap(FileRows, Candidates(d.children, dir))
    decreases d, 0
  {
    out := acc;
    var cs := d.children;
    var i := 0;
    while i < |cs|
      invariant 0 <= i <= |cs|
      invariant out == acc + FlatMap(FileRows, Candidates(cs[..i], dir))
    {
      ghost var kept := FlatMap(FileRows, Candidates(cs[..i], dir));
      out := ContentFromEntry(cs[i], dir, out);
      assert out == acc + FlatMap(FileRows, Candidates(cs[..i + 1], dir)) by {
        CandidatesStep(cs, i, dir);
        FlatMapConcat(FileRows, Candidates(cs[..i], dir), CandidatesFrom(cs[i], dir));
        ConcatAssoc(acc, kept, FlatMap(FileRows, CandidatesFrom(cs[i], dir)));
      }
      i := i + 1;
    }
    assert cs[..i] == cs;
  }

  /** The body of processAllExcelFilesContent for one entry. */
  method ContentFromEntry(c: Entry, dir: string, acc: seq<RowRecord>) returns (out: seq<RowRecord>)
    ensures out == acc + FlatMap(FileRows, CandidatesFrom(c, dir))
    decreases c, 1
  {
    if c.Dir? {
      out := ProcessAllExcelFilesContent(c, Join(dir, c.name), acc);
    } else if IsExcelFile(c.name) {
      FlatMapSingleton(FileRows, Visit(c, dir));
      out := ReadExcelFileContent(Visit(c, dir), acc);
    } else {
      out := acc;
    }
  }

  /** FileService.processExcelFilesContentInDirectory: the records of the
      spreadsheet files among the directory's children. */
  method ProcessExcelFilesContentInDirectory(d: Entry, dir: string, acc: seq<RowRecord>) returns (out: seq<RowRecord>)
    requires d.Dir?
    ensures out == acc + FlatMap(FileRows, LevelCandidates(d.children, dir))
  {
    out := acc;
    var cs := d.children;
    var i := 0;
    while i < |cs|
      invariant 0 <= i <= |cs|
      invariant out == acc + FlatMap(FileRows, LevelCandidates(cs[..i], dir))
    {
      var c := cs[i];
      ghost var kept := FlatMap(FileRows, LevelCandidates(cs[..i], dir));
      ghost var own: seq<Visit> := if c.File? && IsExcelFile(c.name) then [Visit(c, dir)] else [];
      if !c.Dir? && IsExcelFile(c.name) {
        out := ReadExcelFileContent(Visit(c, dir), out);
      }
      assert out == acc + FlatMap(FileRows, LevelCandidates(cs[..i + 1], dir)) by {
        LevelCandidatesStep(cs, i, dir);
        FlatMapConcat(FileRows, LevelCandidates(cs[..i], dir), own);
        FlatMapSingleton(FileRows, Visit(c, dir));
        assert FlatMap(FileRows, []) == [];
        ConcatAssoc(acc, kept, FlatMap(FileRows, own));
      }
      i := i + 1;
    }
    assert cs[..i] == cs;
  }

  /** FileService.getFolderExcelDataForPowerBI: the row records of every
      spreadsheet file in scope; a missing folder is an error. */
  method GetFolderExcelDataForPowerBI(root: Entry, folder: seq<string>, includeSubfolders: bool)
    returns (r: Result<seq<RowRecord>, ServiceError>)
    ensures r.Failure? <==> TargetDir(root, folder).None?
    ensures r.Failure? ==> r.error == FolderNotFound(folder)
    ensures r.Success? ==>
      r.value == FlatMap(FileRows, CandidateScope(TargetDir(root, folder).value.children, PathString(folder), includeSubfolders))
  {
    var target := TargetDir(root, folder);
    if target.None? {
      return Failure(FolderNotFound(folder));
    }
    var allExcelData: seq<RowRecord>;
    if includeSubfolders {
      allExcelData := ProcessAllExcelFilesContent(target.value, PathString(folder), []);
    } else {
      allExcelData := ProcessExcelFilesContentInDirectory(target.value, PathString(folder), []);
    }
    return Success(allExcelData);
  }

  /** A record of the folder's data is the record of a row of a sheet of a
      spreadsheet file in scope that parses, and every such row gives one. */
  lemma ExcelDataMembership(cs: seq<Entry>, dir: string, includeSubfolders: bool, r: RowRecord)
    ensures r in FlatMap(FileRows, CandidateScope(cs, dir, includeSubfolders)) <==>
      exists v :: v in CandidateScope(cs, dir, includeSubfolders) && r in FileRows(v)
  {
    var scope := CandidateScope(cs, dir, includeSubfolders);
    FlatMapMembership(FileRows, scope, r);
    if exists v :: v in scope && r in FileRows(v) {
      var v :| v in scope && r in FileRows(v);
      var i :| 0 <= i < |scope| && scope[i] == v;
    }
  }

  /** The records of one file: one for every row of every sheet of its
      workbook, naming the file, its path, the sheet and the 1-based row
      number, and no others. */
  lemma FileRowsMembership(v: Visit, r: RowRecord)
    requires v.entry.File? && IsExcelFile(v.entry.name) && v.entry.book.Some?
    ensures r in FileRows(v) <==>
      exists i, j :: 0 <= i < |v.entry.book.value| && 0 <= j < |v.entry.book.value[i].rows| &&
        r == RowRecordOf(v.entry.name, v.RelativePath(), v.entry.book.value[i].name, v.entry.book.value[i].rows[j])
  {
    var name, path, book := v.entry.name, v.RelativePath(), v.entry.book.value;
    BookRowsMembership(name, path, book, r);
    if r in FileRows(v) {
      var i :| 0 <= i < |book| && r in SheetRows(name, path, book[i].name, book[i].rows);
      SheetRowsMembership(name, path, book[i].name, book[i].rows, r);
    }
    if exists i, j :: 0 <= i < |book| && 0 <= j < |book[i].rows| && r == RowRecordOf(name, path, book[i].name, book[i].rows[j]) {
      var i, j :| 0 <= i < |book| && 0 <= j < |book[i].rows| && r == RowRecordOf(name, path, book[i].name, book[i].rows[j]);
      SheetRowsMembership(name, path, book[i].name, book[i].rows, r);
    }
  }

  /** A file that does not parse as a workbook contributes no records. */
  lemma UnreadableFileGivesNoRows(v: Visit)
    requires v.entry.File? && v.entry.book.None?
    ensures FileRows(v) == []
  {
  }
}
