/** The combining operation of FileService: every sheet of every
    spreadsheet file in scope copied, in walk order, into one new workbook,
    each under the name "<base name>_<sheet name>", made unique among the
    sheets already there by a "_1", "_2", ... suffix. */
module Combine {
  import opened Wrappers
  import opened Strings
  import opened Seqs
  import opened Spreadsheet
  import opened FileTree
  import opened TreeWalker
  import opened Describe

  /** The name addExcelFileToWorkbook first tries for a copied sheet: the
      file name without its extension, '_', the sheet's own name. */
  function CombinedSheetName(fileName: string, sheetName: string): string
  {
    BaseName(fileName) + "_" + sheetName
  }

  /** The k-th name the uniqueness loop tries: the name itself, then
      name_1, name_2, ... */
  function NameCandidate(orig: string, k: nat): string
  {
    if k == 0 then orig else orig + "_" + DecimalString(k)
  }

  lemma CandidateLower(orig: string, k: nat)
    requires k >= 1
    ensures Lower(NameCandidate(orig, k)) == Lower(orig) + "_" + DecimalString(k)
  {
    LowerConcat(orig + "_", DecimalString(k));
    LowerConcat(orig, "_");
    LowerDigits(DecimalString(k));
  }

  /** The names the loop tries differ pairwise even ignoring case, so it
      never tries the same name twice. */
  lemma CandidatesDistinct(orig: string, j: nat, k: nat)
    requires j != k
    ensures Lower(NameCandidate(orig, j)) != Lower(NameCandidate(orig, k))
  {
    if j == 0 {
      CandidateLower(orig, k);
    } else if k == 0 {
      CandidateLower(orig, j);
    } else {
      CandidateLower(orig, j);
      CandidateLower(orig, k);
      var l := Lower(orig) + "_";
      if Lower(NameCandidate(orig, j)) == Lower(NameCandidate(orig, k)) {
        assert (l + DecimalString(j))[|l|..] == DecimalString(j);
        assert (l + DecimalString(k))[|l|..] == DecimalString(k);
        DecimalInjective(j, k);
      }
    }
  }

  /** The sheet names of a workbook, case-folded: the names for which
      Workbook.getSheet, which ignores case, finds a sheet. */
  function TakenNames(sheets: seq<Sheet>): set<string>
  {
    set i | 0 <= i < |sheets| :: Lower(sheets[i].name)
  }

  /** The first k' >= k whose candidate name is not taken. */
  function FirstFree(taken: set<string>, orig: string, k: nat): (r: nat)
    ensures k <= r
    ensures Lower(NameCandidate(orig, r)) !in taken
    ensures forall j :: k <= j < r ==> Lower(NameCandidate(orig, j)) in taken
    decreases |taken|
  {
    var x := Lower(NameCandidate(orig, k));
    if x !in taken then k
    else
      var r := FirstFree(taken - {x}, orig, k + 1);
      CandidatesDistinct(orig, k, r);
      r
  }

  /** The name a copied sheet gets: the first candidate no sheet of the
      workbook already has, ignoring case; the first name itself when it is
      free. */
  function FreeName(sheets: seq<Sheet>, orig: string): (r: string)
    ensures Lower(r) !in TakenNames(sheets)
    ensures Lower(orig) !in TakenNames(sheets) ==> r == orig
  {
    NameCandidate(orig, FirstFree(TakenNames(sheets), orig, 0))
  }

  /** No two sheets share a name, ignoring case: what Workbook.createSheet
      demands of every new name. */
  predicate DistinctNames(sheets: seq<Sheet>)
  {
    forall i, j :: 0 <= i < j < |sheets| ==> Lower(sheets[i].name) != Lower(sheets[j].name)
  }

  /** The sheets of a workbook after the sheets of `source`, read from file
      `fileName`, are copied into it one after the other. */
  function CopySheets(sheets: seq<Sheet>, fileName: string, source: seq<Sheet>): seq<Sheet>
  {
    if source == [] then sheets else
      var before := CopySheets(sheets, fileName, source[..|source| - 1]);
      var last := source[|source| - 1];
      before + [Sheet(FreeName(before, CombinedSheetName(fileName, last.name)), MapSeq(CopyRow, last.rows))]
  }

  /** The sheets after addExcelFileToWorkbook handles a visited entry: all
      sheets of its workbook copied when the name selects a workbook format
      and the file parses; none when it does not parse (the exception is
      swallowed). */
  function CombineFile(sheets: seq<Sheet>, v: Visit): seq<Sheet>
  {
    if v.entry.File? && IsExcelFile(v.entry.name) && v.entry.book.Some? then
      CopySheets(sheets, v.entry.name, v.entry.book.value)
    else sheets
  }

  /** The sheets after every visited entry of `vs` is handled, in order. */
  function CombineAll(sheets: seq<Sheet>, vs: seq<Visit>): seq<Sheet>
  {
    if vs == [] then sheets else CombineFile(CombineAll(sheets, vs[..|vs| - 1]), vs[|vs| - 1])
  }

  /** The combined workbook, Workbook combinedWorkbook: its sheets in
      creation order. */
  class CombinedWorkbook {
    var sheets: seq<Sheet>

    /** No two sheets share a name, ignoring case: POI refuses to create a
        sheet under a taken name. */
    ghost predicate Valid()
      reads this
    {
      DistinctNames(sheets)
    }

    /** new XSSFWorkbook(): no sheets. */
    constructor()
      ensures Valid() && sheets == []
    {
      sheets := [];
    }

    /** combinedWorkbook.getSheet(name) != null: a sheet has the name,
        ignoring case. */
    function HasSheet(name: string): (found: bool)
      reads this
      ensures found <==> Lower(name) in TakenNames(sheets)
    {
      exists i :: 0 <= i < |sheets| && Lower(sheets[i].name) == Lower(name)
    }

    /** combinedWorkbook.createSheet(name), filled by copySheet: a new last
        sheet. The name must not be taken. */
    method CreateSheet(name: string, rows: seq<Row>)
      requires Valid() && !HasSheet(name)
      modifies this
      ensures Valid() && sheets == old(sheets) + [Sheet(name, rows)]
    {
      AppendFreshKeepsDistinct(sheets, Sheet(name, rows));
      sheets := sheets + [Sheet(name, rows)];
    }
  }

  /** The uniqueness loop of addExcelFileToWorkbook: try the name, then
      name_1, name_2, ... until the workbook has no sheet by that name. */
  method UniqueSheetName(wb: CombinedWorkbook, originalSheetName: string) returns (sheetName: string)
    ensures sheetName == FreeName(wb.sheets, originalSheetName)
  {
    var counter := 1;
    sheetName := originalSheetName;
    ghost var taken := TakenNames(wb.sheets);
    ghost var remaining := taken;
    while wb.HasSheet(sheetName)
      invariant 1 <= counter
      invariant sheetName == NameCandidate(originalSheetName, counter - 1)
      invariant remaining <= taken
      invariant FirstFree(taken, originalSheetName, 0) == FirstFree(remaining, originalSheetName, counter - 1)
      decreases |remaining|
    {
      ghost var x := Lower(sheetName);
      remaining := remaining - {x};
      sheetName := originalSheetName + "_" + DecimalString(counter);
      counter := counter + 1;
    }
  }

  /** FileService.addExcelFileToWorkbook: every sheet of the file's workbook,
      in order, copied under a fresh name. */
  method AddExcelFileToWorkbook(wb: CombinedWorkbook, v: Visit)
    requires wb.Valid()
    modifies wb
    ensures wb.Valid() && wb.sheets == CombineFile(old(wb.sheets), v)
  {
    if !v.entry.File? || !IsExcelFile(v.entry.name) || v.entry.book.None? {
      return;
    }
    var fileName := v.entry.name;
    var sourceWorkbook := v.entry.book.value;
    ghost var start := wb.sheets;
    var i := 0;
    while i < |sourceWorkbook|
      invariant 0 <= i <= |sourceWorkbook|
      invariant wb.Valid()
      invariant wb.sheets == CopySheets(start, fileName, sourceWorkbook[..i])
    {
      var sourceSheet := sourceWorkbook[i];
      var sheetName := UniqueSheetName(wb, CombinedSheetName(fileName, sourceSheet.name));
      var rows := CopySheet(sourceSheet);
      CopySheetsStep(start, fileName, sourceWorkbook, i, rows);
      wb.CreateSheet(sheetName, rows);
      i := i + 1;
    }
    assert sourceWorkbook[..i] == sourceWorkbook;
  }

  /** One more source sheet: the copy of its rows under the name free in
      the sheets so far. */
  lemma CopySheetsStep(start: seq<Sheet>, fileName: string, source: seq<Sheet>, i: nat, rows: seq<Row>)
    requires i < |source|
    requires |rows| == |source[i].rows| && forall k :: 0 <= k < |rows| ==> rows[k] == CopyRow(source[i].rows[k])
    ensures CopySheets(start, fileName, source[..i + 1]) ==
      var before := CopySheets(start, fileName, source[..i]);
      before + [Sheet(FreeName(before, CombinedSheetName(fileName, source[i].name)), rows)]
  {
    assert source[..i + 1][..i] == source[..i];
    MapSeqPointwise(CopyRow, source[i].rows);
    assert rows == MapSeq(CopyRow, source[i].rows);
  }

  /** Handling two runs of entries one after the other. */
  lemma {:induction false} CombineAllConcat(sheets: seq<Sheet>, a: seq<Visit>, b: seq<Visit>)
    ensures CombineAll(sheets, a + b) == CombineAll(CombineAll(sheets, a), b)
    decreases |b|
  {
    if b == [] {
      assert a + b == a;
    } else {
      assert (a + b)[..|a + b| - 1] == a + b[..|b| - 1];
      CombineAllConcat(sheets, a, b[..|b| - 1]);
    }
  }

  /** FileService.combineAllExcelFiles: the spreadsheet files below the
      directory, in walk order. */
  method CombineAllExcelFiles(d: Entry, dir: string, wb: CombinedWorkbook)
    requires d.Dir? && wb.Valid()
    modifies wb
    ensures wb.Valid() && wb.sheets == CombineAll(old(wb.sheets), Candidates(d.children, dir))
    decreases d, 0
  {
    ghost var start := wb.sheets;
    var cs := d.children;
    var i := 0;
    while i < |cs|
      invariant 0 <= i <= |cs|
      invariant wb.Valid()
      invariant wb.sheets == CombineAll(start, Candidates(cs[..i], dir))
    {
      CombineEntry(cs[i], dir, wb);
      assert wb.sheets == CombineAll(start, Candidates(cs[..i + 1], dir)) by {
        CandidatesStep(cs, i, dir);
        CombineAllConcat(start, Candidates(cs[..i], dir), CandidatesFrom(cs[i], dir));
      }
      i := i + 1;
    }
    assert cs[..i] == cs;
  }

  /** The body of combineAllExcelFiles for one entry. */
  method CombineEntry(c: Entry, dir: string, wb: CombinedWorkbook)
    requires wb.Valid()
    modifies wb
    ensures wb.Valid() && wb.sheets == CombineAll(old(wb.sheets), CandidatesFrom(c, dir))
    decreases c, 1
  {
    if c.Dir? {
      CombineAllExcelFiles(c, Join(dir, c.name), wb);
    } else if IsExcelFile(c.name) {
      assert [Visit(c, dir)][..0] == [];
      AddExcelFileToWorkbook(wb, Visit(c, dir));
    }
  }

  /** The body of combineExcelFilesInDirectory for one child. */
  method CombineLevelEntry(c: Entry, dir: string, wb: CombinedWorkbook)
    requires wb.Valid()
    modifies wb
    ensures wb.Valid() && wb.sheets == CombineAll(old(wb.sheets), LevelCandidate(c, dir))
  {
    if !c.Dir? && IsExcelFile(c.name) {
      assert [Visit(c, dir)][..0] == [];
      AddExcelFileToWorkbook(wb, Visit(c, dir));
    }
  }

  /** FileService.combineExcelFilesInDirectory: the spreadsheet files among
      the directory's children. */
  method CombineExcelFilesInDirectory(d: Entry, dir: string, wb: CombinedWorkbook)
    requires d.Dir? && wb.Valid()
    modifies wb
    ensures wb.Valid() && wb.sheets == CombineAll(old(wb.sheets), LevelCandidates(d.children, dir))
  {
    ghost var start := wb.sheets;
    var cs := d.children;
    var i := 0;
    while i < |cs|
      invariant 0 <= i <= |cs|
      invariant wb.Valid()
      invariant wb.sheets == CombineAll(start, LevelCandidates(cs[..i], dir))
    {
      CombineLevelEntry(cs[i], dir, wb);
      assert wb.sheets == CombineAll(start, LevelCandidates(cs[..i + 1], dir)) by {
        LevelCandidatesStep(cs, i, dir);
        CombineAllConcat(start, LevelCandidates(cs[..i], dir), LevelCandidate(cs[i], dir));
      }
      i := i + 1;
    }
    assert cs[..i] == cs;
  }

  /** FileService.createCombinedExcelFile: the sheets of the new workbook
      (its serialisation to bytes is not modelled); a missing folder is an
      error. */
  method CreateCombinedExcelFile(root: Entry, folder: seq<string>, includeSubfolders: bool)
    returns (r: Result<seq<Sheet>, ServiceError>)
    ensures r.Failure? <==> TargetDir(root, folder).None?
    ensures r.Failure? ==> r.error == FolderNotFound(folder)
    ensures r.Success? ==>
      r.value == CombineAll([], CandidateScope(TargetDir(root, folder).value.children, PathString(folder), includeSubfolders))
    ensures r.Success? ==> DistinctNames(r.value)
  {
    var target := TargetDir(root, folder);
    if target.None? {
      return Failure(FolderNotFound(folder));
    }
    var combinedWorkbook := new CombinedWorkbook();
    if includeSubfolders {
      CombineAllExcelFiles(target.value, PathString(folder), combinedWorkbook);
    } else {
      CombineExcelFilesInDirectory(target.value, PathString(folder), combinedWorkbook);
    }
    return Success(combinedWorkbook.sheets);
  }

  /** A sheet whose name is not taken keeps the names distinct. */
  lemma AppendFreshKeepsDistinct(sheets: seq<Sheet>, s: Sheet)
    requires DistinctNames(sheets) && Lower(s.name) !in TakenNames(sheets)
    ensures DistinctNames(sheets + [s])
  {
    var all := sheets + [s];
    forall i, j | 0 <= i < j < |all|
      ensures Lower(all[i].name) != Lower(all[j].name)
    {
      if j == |sheets| {
        assert Lower(sheets[i].name) in TakenNames(sheets);
      }
    }
  }

  /** Copying a file's sheets keeps the names distinct. */
  lemma {:induction false} CopySheetsDistinct(sheets: seq<Sheet>, fileName: string, source: seq<Sheet>)
    requires DistinctNames(sheets)
    ensures DistinctNames(CopySheets(sheets, fileName, source))
    decreases |source|
  {
    if source != [] {
      var before := CopySheets(sheets, fileName, source[..|source| - 1]);
      var last := source[|source| - 1];
      CopySheetsDistinct(sheets, fileName, source[..|source| - 1]);
      AppendFreshKeepsDistinct(before, Sheet(FreeName(before, CombinedSheetName(fileName, last.name)), MapSeq(CopyRow, last.rows)));
    }
  }

  /** However many files are combined, no two sheets of the workbook share a
      name, ignoring case: createSheet never meets a taken name. */
  lemma {:induction false} CombineAllDistinct(sheets: seq<Sheet>, vs: seq<Visit>)
    requires DistinctNames(sheets)
    ensures DistinctNames(CombineAll(sheets, vs))
    decreases |vs|
  {
    if vs != [] {
      var before := CombineAll(sheets, vs[..|vs| - 1]);
      CombineAllDistinct(sheets, vs[..|vs| - 1]);
      var v := vs[|vs| - 1];
      if v.entry.File? && IsExcelFile(v.entry.name) && v.entry.book.Some? {
        CopySheetsDistinct(before, v.entry.name, v.entry.book.value);
      }
    }
  }

  /** Copying a file's sheets adds one sheet per source sheet after the
      existing ones, which stay as they are. */
  lemma {:induction false} CopySheetsLength(sheets: seq<Sheet>, fileName: string, source: seq<Sheet>)
    ensures |CopySheets(sheets, fileName, source)| == |sheets| + |source|
    ensures CopySheets(sheets, fileName, source)[..|sheets|] == sheets
    decreases |source|
  {
    if source != [] {
      CopySheetsLength(sheets, fileName, source[..|source| - 1]);
    }
  }

  /** The free name starts with the name first tried. */
  lemma FreeNameExtends(sheets: seq<Sheet>, orig: string)
    ensures orig <= FreeName(sheets, orig)
  {
    var k := FirstFree(TakenNames(sheets), orig, 0);
    assert orig <= NameCandidate(orig, k);
  }

  /** The sheet copied from the i-th source sheet holds its copied rows,
      under the first name tried or that name with a numeric suffix. */
  lemma {:induction false} CopySheetsAt(sheets: seq<Sheet>, fileName: string, source: seq<Sheet>, i: nat)
    requires i < |source|
    ensures |sheets| + i < |CopySheets(sheets, fileName, source)|
    ensures CopySheets(sheets, fileName, source)[|sheets| + i].rows == MapSeq(CopyRow, source[i].rows)
    ensures CombinedSheetName(fileName, source[i].name) <= CopySheets(sheets, fileName, source)[|sheets| + i].name
    decreases |source|
  {
    var n := |source|;
    var prefix, last := source[..n - 1], source[n - 1];
    var before := CopySheets(sheets, fileName, prefix);
    var added := Sheet(FreeName(before, CombinedSheetName(fileName, last.name)), MapSeq(CopyRow, last.rows));
    assert CopySheets(sheets, fileName, source) == before + [added];
    CopySheetsLength(sheets, fileName, prefix);
    if i < n - 1 {
      CopySheetsAt(sheets, fileName, prefix, i);
      assert prefix[i] == source[i];
      assert (before + [added])[|sheets| + i] == before[|sheets| + i];
    } else {
      FreeNameExtends(before, CombinedSheetName(fileName, last.name));
      assert (before + [added])[|sheets| + i] == added;
    }
  }

  /** The number of sheets of the parsed spreadsheet files among `vs`. */
  function SheetCount(vs: seq<Visit>): nat
  {
    if vs == [] then 0 else
      var v := vs[|vs| - 1];
      SheetCount(vs[..|vs| - 1]) + (if v.entry.File? && IsExcelFile(v.entry.name) && v.entry.book.Some? then |v.entry.book.value| else 0)
  }

  /** Combining keeps the sheets already there and adds exactly one sheet
      per sheet of every parsed spreadsheet file. */
  lemma {:induction false} CombineAllCount(sheets: seq<Sheet>, vs: seq<Visit>)
    ensures |CombineAll(sheets, vs)| == |sheets| + SheetCount(vs)
    ensures CombineAll(sheets, vs)[..|sheets|] == sheets
    decreases |vs|
  {
    if vs != [] {
      var before := CombineAll(sheets, vs[..|vs| - 1]);
      CombineAllCount(sheets, vs[..|vs| - 1]);
      var v := vs[|vs| - 1];
      if v.entry.File? && IsExcelFile(v.entry.name) && v.entry.book.Some? {
        CopySheetsLength(before, v.entry.name, v.entry.book.value);
        assert CombineAll(sheets, vs)[..|sheets|] == before[..|before|][..|sheets|];
      }
    }
  }

  /** The combined workbook has distinct sheet names and one sheet per sheet
      of every parsed spreadsheet file in scope. */
  lemma CombinedWorkbookFacts(cs: seq<Entry>, dir: string, includeSubfolders: bool)
    ensures DistinctNames(CombineAll([], CandidateScope(cs, dir, includeSubfolders)))
    ensures |CombineAll([], CandidateScope(cs, dir, includeSubfolders))| == SheetCount(CandidateScope(cs, dir, includeSubfolders))
  {
    CombineAllDistinct([], CandidateScope(cs, dir, includeSubfolders));
    CombineAllCount([], CandidateScope(cs, dir, includeSubfolders));
  }

  /** addExcelFileToWorkbook as written for a parsed file, when every cell
      carries a style of its own workbook: the source sheets in order, each
      created under its free name before copySheet runs, so the sheet whose
      copy throws stays with what was copied, and the exception, caught for
      the whole file, skips every later sheet. */
  function CopySheetsAsWritten(sheets: seq<Sheet>, fileName: string, source: seq<Sheet>): seq<Sheet>
    decreases |source|
  {
    if source == [] then sheets
    else
      var copy := CopyRowsAsWritten(source[0].rows);
      var next := sheets + [Sheet(FreeName(sheets, CombinedSheetName(fileName, source[0].name)), copy.rows)];
      if copy.thrown then next else CopySheetsAsWritten(next, fileName, source[1..])
  }

  /** The sheets after addExcelFileToWorkbook, as written, handles a
      visited entry. */
  function CombineFileAsWritten(sheets: seq<Sheet>, v: Visit): seq<Sheet>
  {
    if v.entry.File? && IsExcelFile(v.entry.name) && v.entry.book.Some? then
      CopySheetsAsWritten(sheets, v.entry.name, v.entry.book.value)
    else sheets
  }

  /** Copying a first sheet and then the rest is copying them all. */
  lemma {:induction false} CopySheetsCons(sheets: seq<Sheet>, fileName: string, s: Sheet, rest: seq<Sheet>)
    ensures CopySheets(sheets, fileName, [s] + rest) ==
      CopySheets(sheets + [Sheet(FreeName(sheets, CombinedSheetName(fileName, s.name)), MapSeq(CopyRow, s.rows))], fileName, rest)
    decreases |rest|
  {
    var all := [s] + rest;
    if rest == [] {
      assert all[..0] == [];
    } else {
      var next := sheets + [Sheet(FreeName(sheets, CombinedSheetName(fileName, s.name)), MapSeq(CopyRow, s.rows))];
      var init, last := rest[..|rest| - 1], rest[|rest| - 1];
      assert all[..|all| - 1] == [s] + init && all[|all| - 1] == last;
      CopySheetsCons(sheets, fileName, s, init);
      var before := CopySheets(next, fileName, init);
      assert CopySheets(sheets, fileName, all) ==
        before + [Sheet(FreeName(before, CombinedSheetName(fileName, last.name)), MapSeq(CopyRow, last.rows))];
    }
  }

  /** A sheet without cells: the as-written copy completes with the intended rows. */
  lemma CopyRowsIntended(rows: seq<Row>)
    requires !HoldsCell(rows)
    ensures CopyRowsAsWritten(rows) == PartialCopy(MapSeq(CopyRow, rows), false)
  {
    CopyRowsAsWrittenThrows(rows);
    CopyRowsAsWrittenWithoutCells(rows);
    MapSeqPointwise(CopyRow, rows);
  }

  /** When no source sheet holds a cell, the copy as written and the
      intended copy agree. */
  lemma {:induction false} CopySheetsAsWrittenWithoutCells(sheets: seq<Sheet>, fileName: string, source: seq<Sheet>)
    requires forall i :: 0 <= i < |source| ==> !HoldsCell(source[i].rows)
    ensures CopySheetsAsWritten(sheets, fileName, source) == CopySheets(sheets, fileName, source)
    decreases |source|
  {
    if source != [] {
      var s, rest := source[0], source[1..];
      assert !HoldsCell(s.rows);
      CopyRowsIntended(s.rows);
      var next := sheets + [Sheet(FreeName(sheets, CombinedSheetName(fileName, s.name)), MapSeq(CopyRow, s.rows))];
      assert CopySheetsAsWritten(sheets, fileName, source) == CopySheetsAsWritten(next, fileName, rest);
      assert forall i :: 0 <= i < |rest| ==> rest[i] == source[i + 1];
      CopySheetsAsWrittenWithoutCells(next, fileName, rest);
      CopySheetsCons(sheets, fileName, s, rest);
      assert [s] + rest == source;
    }
  }

  /** The discrepancy: a parsed spreadsheet file whose first sheet holds a
      cell contributes one sheet as written, where the intended copy
      contributes one per sheet of the file. */
  lemma StyleCopyCutsFile(sheets: seq<Sheet>, v: Visit)
    requires v.entry.File? && IsExcelFile(v.entry.name) && v.entry.book.Some?
    requires |v.entry.book.value| >= 2 && HoldsCell(v.entry.book.value[0].rows)
    ensures |CombineFileAsWritten(sheets, v)| == |sheets| + 1
    ensures |CombineFile(sheets, v)| == |sheets| + |v.entry.book.value| > |sheets| + 1
  {
    CopyRowsAsWrittenThrows(v.entry.book.value[0].rows);
    CopySheetsLength(sheets, v.entry.name, v.entry.book.value);
  }
}
