# FileService — a verified model

`FileService` is the back end of a small Spring web application. It serves files that sit under one data
directory to a browser and to Power BI. This project models its logic in Dafny and proves what that logic
promises. The logic covered is:

- **Listing** one folder: directories first, then case-insensitive name order.
- **Searching** a subtree by a case-insensitive substring of the entry name.
- **Summing** file sizes.
- **Summarising** the immediate subfolders, with a file count for each.
- **Describing** files for Power BI: the metadata record, the compatible record, the lightweight record
  with its 10 MiB content threshold, the basic record, and a walk capped at `maxFiles` records.
- **Selecting** spreadsheet files (`.xlsx` / `.xls`), recursively or one level deep.
- **Flattening** every row of every sheet of those spreadsheets into records. Each record carries
  `FileName`, `RelativePath`, `SheetName`, `RowNumber` and `Column1..ColumnN`.
- **Combining** all sheets of those spreadsheets into one workbook, with sheet names made unique by a
  `_k` suffix.

## Modelling choices

- **The data directory is a value.** It is an inductive `FileTree.Entry`:
  - A file (`File`) has a name, a size and a modification time.
  - A file also carries the outcome of reading its bytes (`data`). `None` stands for a read error that the
    service swallows.
  - It carries the outcome of parsing it with Apache POI (`book`). `None` stands for a parse error that the
    service swallows.
  - A directory (`Dir`) has a name, a modification time and its children. The children are in the order the
    directory stream yields them.
  - A well-formed tree (`FileTree.WellFormed`) has non-empty names without `/`, unique within each
    directory, as a file system guarantees.
- **Paths are walks.** A caller's folder is a sequence of path segments resolved from the root
  (`FileTree.TargetDir`). During a walk, a `Visit` pairs an entry with the relative path of its directory.
- **Spreadsheets are values.** A workbook is a `seq<Sheet>`. A sheet has a name and its present rows. A row
  keeps its 0-based index and a cell slot per column up to `lastCellNum`.
- **The Java walks become Dafny methods.** Each Java walk appends to a caller-owned list inside a loop over
  the directory stream. Each is a Dafny method with a `while` loop, proved against a pure specification
  function, and that function's properties are proved as lemmas.
- **Each recursive walk is two methods.**
  - The directory loop is one mutually recursive method.
  - The per-entry work is the other.
- **The combined workbook is a class.** `Combine.CombinedWorkbook` holds the sheets created so far and is
  updated in place.
- **Case folding is ASCII.** `Strings.Lower` maps `A`–`Z` to `a`–`z` and leaves every other character
  alone.
- **The comparator is lexicographic.** `compareToIgnoreCase` is modelled as lexicographic order on the
  lowered names (`Ordering.NameLeq`).
- **Sorting is an insertion sort.** The library sort `List.sort` is modelled by a stable insertion sort,
  `Ordering.SortBy`. Nothing relies on its stability: the model proves only that the result is sorted and
  is a permutation of the input.
- **Sheet-name lookup ignores case.** POI's `getSheet` looks names up case-insensitively, so
  `CombinedWorkbook.HasSheet` compares lowered names.

## Model

| member | source | states |
|---|---|---|
| Strings.LowerIdempotent | KPC_NCSI_Report_Web/src/main/java/com/ncsi/FileService.java:170 | lower-casing a lowered name changes nothing more |
| Strings.LowerFixesExactlyLowerCase | KPC_NCSI_Report_Web/src/main/java/com/ncsi/FileService.java:170 | a lowered name holds no upper-case letter, and lowering leaves a name unchanged exactly when it holds none |
| Strings.LowerConcat | KPC_NCSI_Report_Web/src/main/java/com/ncsi/FileService.java:170 | lower-casing distributes over concatenation |
| Strings.ContainsAt | KPC_NCSI_Report_Web/src/main/java/com/ncsi/FileService.java:170 | `contains` holds exactly when the term occurs at some index of the name |
| Strings.ContainsEmpty | KPC_NCSI_Report_Web/src/main/java/com/ncsi/FileService.java:170 | every name contains the empty term |
| Strings.LastIndexOf | KPC_NCSI_Report_Web/src/main/java/com/ncsi/FileService.java:272-273 | `lastIndexOf` is -1 exactly when the character is absent; otherwise it is the position of that character with none after it |
| Strings.LastIndexOfSeparator | KPC_NCSI_Report_Web/src/main/java/com/ncsi/FileService.java:272-273 | in `a + c + b`, with `c` not in `b`, the last `c` is at `|a|` |
| Strings.DecimalString | KPC_NCSI_Report_Web/src/main/java/com/ncsi/FileService.java:340 | the rendering of a count is a non-empty digit string with no leading zero |
| Strings.DecimalRoundTrip | KPC_NCSI_Report_Web/src/main/java/com/ncsi/FileService.java:340 | parsing the decimal rendering gives back the number |
| Strings.DecimalInjective | KPC_NCSI_Report_Web/src/main/java/com/ncsi/FileService.java:656 | distinct numbers render to distinct strings, so distinct `_k` suffixes never coincide |
| Strings.FolderPathOfJoin | KPC_NCSI_Report_Web/src/main/java/com/ncsi/FileService.java:272-273 | the folder path (the text before the last `/`) of `dir/name` is `dir` when the name has no `/` |
| Strings.ExtensionConventions | KPC_NCSI_Report_Web/src/main/java/com/ncsi/FileService.java:760-761 | the base name plus the dotted extension is the whole name; the dotted extension is empty exactly when there is no dot, and otherwise starts with its only dot; the lower-case extension is the lowered dotted one without its dot |
| Strings.IsExcelFileIffExtension | KPC_NCSI_Report_Web/src/main/java/com/ncsi/FileService.java:396-399 | a name is a spreadsheet name exactly when its lower-case extension is `xlsx` or `xls` |
| Strings.ExcelFileHasExcelExtension | KPC_NCSI_Report_Web/src/main/java/com/ncsi/FileService.java:396-399 | a spreadsheet name has extension `xlsx` or `xls` |
| Strings.OtherFileHasOtherExtension | KPC_NCSI_Report_Web/src/main/java/com/ncsi/FileService.java:396-399 | any other name has neither extension |
| Strings.DottedSuffixIsExcel | KPC_NCSI_Report_Web/src/main/java/com/ncsi/FileService.java:396-399 | a lowered name ending in `.xlsx` or `.xls` is a spreadsheet name |
| Strings.ExtensionExcelSuffix | KPC_NCSI_Report_Web/src/main/java/com/ncsi/FileService.java:396-399 | extension `e` implies that the lowered name ends with `.e` |
| Strings.ExcelSuffixExtension | KPC_NCSI_Report_Web/src/main/java/com/ncsi/FileService.java:396-399 | a lowered name ending with `.xlsx` or `.xls` has that extension (the converse) |
| Ordering.LexLeqTotal | KPC_NCSI_Report_Web/src/main/java/com/ncsi/FileService.java:54 | the case-insensitive name order relates every pair of strings |
| Ordering.LexLeqTransitive | KPC_NCSI_Report_Web/src/main/java/com/ncsi/FileService.java:54 | the order is transitive |
| Ordering.LexLeqAntisymmetric | KPC_NCSI_Report_Web/src/main/java/com/ncsi/FileService.java:54 | the order is antisymmetric |
| Ordering.KeyLeqTotalPreorder | KPC_NCSI_Report_Web/src/main/java/com/ncsi/FileService.java:47-55 | the (directory-first, name) comparator is a total preorder |
| Ordering.Insert | KPC_NCSI_Report_Web/src/main/java/com/ncsi/FileService.java:47-55 | inserting into a sorted list keeps it sorted and adds exactly that element |
| Ordering.SortBy | KPC_NCSI_Report_Web/src/main/java/com/ncsi/FileService.java:47-55 | `List.sort` returns a sorted permutation of its input |
| Spreadsheet.EmptyDisplayExactly | KPC_NCSI_Report_Web/src/main/java/com/ncsi/FileService.java:549-570 | a cell displays as `""` exactly when it is missing, blank or an error, or holds an empty string or an empty formula |
| Spreadsheet.NumericDisplayExactly | KPC_NCSI_Report_Web/src/main/java/com/ncsi/FileService.java:557-562 | only numeric cells get a Java rendering: a date rendering exactly when date-formatted, a number rendering otherwise, each of the cell's own number |
| Spreadsheet.TextDisplayFacts | KPC_NCSI_Report_Web/src/main/java/com/ncsi/FileService.java:555-566 | string and formula cells show their own text; a boolean shows `"true"` exactly when it is true and `"false"` otherwise |
| Spreadsheet.CopyCell | KPC_NCSI_Report_Web/src/main/java/com/ncsi/FileService.java:681-703 | the copy keeps the style; it is blank exactly when the source is blank or an error, and numeric exactly when the source is; a plain number, string, boolean or formula keeps its value; a date-formatted number stays date-formatted and holds the serial re-encoded through `java.util.Date` (`ReencodedDate`) |
| Spreadsheet.CopyRow | KPC_NCSI_Report_Web/src/main/java/com/ncsi/FileService.java:675-680 | the copied row keeps its row index and every column index; each present cell is the copy of the source cell |
| Spreadsheet.CopyCellRoundTrip | KPC_NCSI_Report_Web/src/main/java/com/ncsi/FileService.java:681-703 | copying changes no string, boolean, formula or plain-number cell, and copying a non-date cell twice equals copying it once; a date cell stays a date cell holding the re-encoded serial |
| Spreadsheet.CopyKeepsDisplay | KPC_NCSI_Report_Web/src/main/java/com/ncsi/FileService.java:549-570 | a copied cell other than a date cell displays as the same string as its source; a copied date cell displays the date of the re-encoded serial |
| Spreadsheet.CopySheet | KPC_NCSI_Report_Web/src/main/java/com/ncsi/FileService.java:674-706 | the target holds, in order, exactly the copies of the source's rows |
| FileTree.FindChild | KPC_NCSI_Report_Web/src/main/java/com/ncsi/FileService.java:22 | a child found by name is in the folder and has that name; no child is found only when no child has it |
| FileTree.TargetDirExactly | KPC_NCSI_Report_Web/src/main/java/com/ncsi/FileService.java:22-26 | the empty path is the data directory itself; otherwise a folder is found exactly when the walk of the data directory meets a directory at that relative path, and what it meets there is the resolved entry |
| FileTree.ResolvedIsReached | KPC_NCSI_Report_Web/src/main/java/com/ncsi/FileService.java:22-26 | whatever a path resolves to is met by the walk, under the last segment's name, in the folder the earlier segments name |
| FileTree.ReachedIsResolved | KPC_NCSI_Report_Web/src/main/java/com/ncsi/FileService.java:132-146 | every entry the walk meets is what some path of valid names resolves to, and that path spells its relative path |
| FileTree.PathStringInjective | KPC_NCSI_Report_Web/src/main/java/com/ncsi/FileService.java:39 | two paths of valid names with the same relative path string are the same path |
| FileTree.FindChildUnique | KPC_NCSI_Report_Web/src/main/java/com/ncsi/FileService.java:22 | in a directory with unique names, looking a child up by its name finds that child |
| FileTree.Level | KPC_NCSI_Report_Web/src/main/java/com/ncsi/FileService.java:30-43 | one level of a directory stream is each child visited in order in the same directory |
| FileTree.WalkAllReaches | KPC_NCSI_Report_Web/src/main/java/com/ncsi/FileService.java:258-284 | the pre-order walk visits exactly the entries reachable below the folder |
| FileTree.WalkFromReaches | KPC_NCSI_Report_Web/src/main/java/com/ncsi/FileService.java:258-284 | the walk from one entry visits exactly that entry and what lies below it |
| FileTree.CandidatesFilterWalk | KPC_NCSI_Report_Web/src/main/java/com/ncsi/FileService.java:369-381 | the recursive spreadsheet walk is the pre-order walk filtered to spreadsheet files, in walk order |
| FileTree.CandidatesFromFilterWalk | KPC_NCSI_Report_Web/src/main/java/com/ncsi/FileService.java:369-381 | the same holds from a single entry |
| FileTree.LevelCandidatesFilterLevel | KPC_NCSI_Report_Web/src/main/java/com/ncsi/FileService.java:384-393 | the single-level walk is the directory's own children filtered to spreadsheet files |
| FileTree.CandidateMembership | KPC_NCSI_Report_Web/src/main/java/com/ncsi/FileService.java:369-399 | a visit is selected by the recursive walk exactly when it is reachable and is a spreadsheet file (never a directory) |
| FileTree.LevelCandidatesAreCandidates | KPC_NCSI_Report_Web/src/main/java/com/ncsi/FileService.java:384-393 | every single-level selection is an immediate child and is also selected recursively |
| FileTree.CandidatesConcat | KPC_NCSI_Report_Web/src/main/java/com/ncsi/FileService.java:369-381 | selection over two runs of children is the concatenation of the two selections |
| FileTree.WalkNamesValid | KPC_NCSI_Report_Web/src/main/java/com/ncsi/FileService.java:258-284 | in a well-formed tree every visited name is a valid path segment |
| TreeWalker.ListFiles | KPC_NCSI_Report_Web/src/main/java/com/ncsi/FileService.java:20-58 | fails with `Directory not found: <path>` exactly when the folder is missing or is not a directory; otherwise returns a permutation of the folder's children's records in which every directory precedes every file and names are in case-insensitive order within each group |
| TreeWalker.SumFileSizesConcat | KPC_NCSI_Report_Web/src/main/java/com/ncsi/FileService.java:132-146 | summing file sizes distributes over concatenation of walks |
| TreeWalker.DirectorySizeSumsAllFiles | KPC_NCSI_Report_Web/src/main/java/com/ncsi/FileService.java:132-146 | the recursive size (immediate files plus each subdirectory's size) equals the sum of the sizes of all files at any depth |
| TreeWalker.EntrySizeSumsAllFiles | KPC_NCSI_Report_Web/src/main/java/com/ncsi/FileService.java:132-146 | the same holds for the subtree of one entry |
| TreeWalker.CalculateDirectorySize | KPC_NCSI_Report_Web/src/main/java/com/ncsi/FileService.java:132-146 | the accumulating loop returns the recursive size |
| TreeWalker.CalculateTotalSize | KPC_NCSI_Report_Web/src/main/java/com/ncsi/FileService.java:121-130 | a missing folder gives 0; otherwise the result is the sum of all file sizes below it |
| TreeWalker.SearchInDirectory | KPC_NCSI_Report_Web/src/main/java/com/ncsi/FileService.java:165-190 | appends, in pre-order, the records of exactly the matching entries below the directory |
| TreeWalker.SearchEntry | KPC_NCSI_Report_Web/src/main/java/com/ncsi/FileService.java:167-187 | appends the matching visits of one entry's walk: the entry itself, then its subtree |
| TreeWalker.SearchFiles | KPC_NCSI_Report_Web/src/main/java/com/ncsi/FileService.java:148-163 | a missing folder gives the empty list; otherwise the result is a permutation of the matching entries' records, sorted case-insensitively by name |
| TreeWalker.SearchMatchesExactly | KPC_NCSI_Report_Web/src/main/java/com/ncsi/FileService.java:165-190 | a visit matches exactly when it is reachable and its lowered name contains the lowered term |
| TreeWalker.EmptyTermMatchesAll | KPC_NCSI_Report_Web/src/main/java/com/ncsi/FileService.java:157-170 | the empty term matches every entry |
| TreeWalker.CountFiles | KPC_NCSI_Report_Web/src/main/java/com/ncsi/FileService.java:234-243 | the counter equals the number of immediate non-directory children |
| TreeWalker.GetFoldersForPowerBI | KPC_NCSI_Report_Web/src/main/java/com/ncsi/FileService.java:216-255 | fails with `Parent folder not found: <path>` exactly when the parent is missing; otherwise returns a permutation of one record per immediate subfolder, with its file count, sorted by folder name |
| Describe.NodeFolderIsParent | KPC_NCSI_Report_Web/src/main/java/com/ncsi/FileService.java:268-274 | an entry's folder path is its directory's relative path, and its relative path is that folder path joined to its name |
| Describe.CollectAllFiles | KPC_NCSI_Report_Web/src/main/java/com/ncsi/FileService.java:258-284 | appends one metadata record per entry of the pre-order walk, directories included |
| Describe.CollectEntry | KPC_NCSI_Report_Web/src/main/java/com/ncsi/FileService.java:260-282 | appends the record of one entry, then those of its subtree |
| Describe.CollectFilesInDirectory | KPC_NCSI_Report_Web/src/main/java/com/ncsi/FileService.java:287-308 | appends one record per immediate child, in stream order |
| Describe.FormatFileSize | KPC_NCSI_Report_Web/src/main/java/com/ncsi/FileService.java:339-344 | below 1024 the text is `<n> B` exactly; otherwise the unit is the largest of KB/MB/GB not exceeding the size |
| Describe.ConvertToPowerBIFormat | KPC_NCSI_Report_Web/src/main/java/com/ncsi/FileService.java:311-337 | the record copies name, kind, size, time and paths; the extension is lower-case, is non-empty only for a dotted file name, and is its lowered dotted extension without the dot; the formatted size is the size's rendering |
| Describe.ExtensionFacts | KPC_NCSI_Report_Web/src/main/java/com/ncsi/FileService.java:321-326 | the lower-case extension is fixed by lower-casing and agrees with the dotted extension lowered |
| Describe.GetFolderFilesForPowerBI | KPC_NCSI_Report_Web/src/main/java/com/ncsi/FileService.java:193-213 | fails with `Folder not found: <path>` exactly when the folder is missing; otherwise returns the Power BI records of the recursive walk or of one level |
| Describe.MapAll | KPC_NCSI_Report_Web/src/main/java/com/ncsi/FileService.java:212 | the conversion loop maps each record in order |
| Describe.PowerBIListingCoversScope | KPC_NCSI_Report_Web/src/main/java/com/ncsi/FileService.java:203-209 | with subfolders the scope is everything reachable; without, it is exactly the immediate children |
| Describe.ExcelFileRecordFacts | KPC_NCSI_Report_Web/src/main/java/com/ncsi/FileService.java:402-437 | the download URL is the fixed base followed by the relative path; the folder path is the directory; the relative path is folder path joined to name; the extension is `xlsx` or `xls`; the size is the file's |
| Describe.CompatibleRecordOf | KPC_NCSI_Report_Web/src/main/java/com/ncsi/FileService.java:753-778 | all three dates are the modification time; attributes say "archive, not directory"; content is the Base64 of the bytes exactly when they could be read |
| Describe.LightRecordOf | KPC_NCSI_Report_Web/src/main/java/com/ncsi/FileService.java:831-856 | content is present exactly when the bytes could be read and the size is below 10 MiB, and then it encodes those bytes |
| Describe.LightIsCompatibleTrimmed | KPC_NCSI_Report_Web/src/main/java/com/ncsi/FileService.java:842-853 | the lightweight record agrees with the compatible one on name, extension and folder, and has its content only below the threshold |
| Describe.BasicRecordFacts | KPC_NCSI_Report_Web/src/main/java/com/ncsi/FileService.java:903-916 | the relative path of a spreadsheet's basic record lies in the visited folder; its dotted extension completes the base name and is `.xlsx` or `.xls` up to case; its size is the file's |
| Describe.CollectCandidates | KPC_NCSI_Report_Web/src/main/java/com/ncsi/FileService.java:729-739 | the recursive walk appends one record per spreadsheet file, in walk order |
| Describe.CollectFromEntry | KPC_NCSI_Report_Web/src/main/java/com/ncsi/FileService.java:731-737 | the same for one entry's subtree |
| Describe.CollectLevelCandidates | KPC_NCSI_Report_Web/src/main/java/com/ncsi/FileService.java:742-750 | the single-level walk appends one record per spreadsheet file among the immediate children |
| Describe.CollectInScope | KPC_NCSI_Report_Web/src/main/java/com/ncsi/FileService.java:719-723 | picks the recursive or single-level walk by `includeSubfolders` |
| Describe.GetFolderDataForPowerBI | KPC_NCSI_Report_Web/src/main/java/com/ncsi/FileService.java:347-366 | folder-not-found error exactly when missing; otherwise one spreadsheet record per selected file |
| Describe.GetFolderFilesCompatible | KPC_NCSI_Report_Web/src/main/java/com/ncsi/FileService.java:709-726 | folder-not-found error exactly when missing; otherwise one compatible record per selected file |
| Describe.GetFolderFileListOnly | KPC_NCSI_Report_Web/src/main/java/com/ncsi/FileService.java:859-876 | folder-not-found error exactly when missing; otherwise one basic record per selected file |
| Describe.CandidateScopeMembership | KPC_NCSI_Report_Web/src/main/java/com/ncsi/FileService.java:369-393 | recursively, exactly the reachable spreadsheet files are selected; one level, exactly the spreadsheet files among the immediate children; the latter are among the former |
| Describe.CollectFilesLimited | KPC_NCSI_Report_Web/src/main/java/com/ncsi/FileService.java:801-815 | the capped walk appends the first `maxFiles - |acc|` records of the uncapped walk |
| Describe.CollectEntryLimited | KPC_NCSI_Report_Web/src/main/java/com/ncsi/FileService.java:802-813 | the same for one entry, when there is room left |
| Describe.CollectFilesInDirectoryLimited | KPC_NCSI_Report_Web/src/main/java/com/ncsi/FileService.java:818-828 | the capped single-level walk appends the first records of the uncapped single-level walk |
| Describe.LimitReached | KPC_NCSI_Report_Web/src/main/java/com/ncsi/FileService.java:806 | once the cap is reached, the remaining children add nothing |
| Describe.GetFolderFilesLimited | KPC_NCSI_Report_Web/src/main/java/com/ncsi/FileService.java:781-828 | folder-not-found error exactly when missing; otherwise the first `maxFiles` lightweight records of the uncapped walk: at most `max(maxFiles, 0)` of them, a prefix of the uncapped list, and all of it when the cap is not reached |
| Flatten.ColumnKeyInjective | KPC_NCSI_Report_Web/src/main/java/com/ncsi/FileService.java:530 | distinct column numbers give distinct keys |
| Flatten.ColumnKeyIsNotFixedKey | KPC_NCSI_Report_Web/src/main/java/com/ncsi/FileService.java:519-530 | no `ColumnN` key collides with FileName, RelativePath, SheetName or RowNumber |
| Flatten.ColumnsExactly | KPC_NCSI_Report_Web/src/main/java/com/ncsi/FileService.java:525-532 | the column map has exactly the keys `Column1..ColumnN` for a row with `N` slots, each key holding the display string of its cell (`""` for an absent one) |
| Flatten.SheetRowsPointwise | KPC_NCSI_Report_Web/src/main/java/com/ncsi/FileService.java:512-535 | each present row of a sheet yields one record, in order, with `RowNumber` its index + 1 |
| Flatten.SheetRowsMembership | KPC_NCSI_Report_Web/src/main/java/com/ncsi/FileService.java:512-535 | a record comes from a sheet exactly when it is the record of one of its rows |
| Flatten.BookRowsMembership | KPC_NCSI_Report_Web/src/main/java/com/ncsi/FileService.java:507-536 | a record comes from a workbook exactly when it comes from one of its sheets |
| Flatten.BookRowsCount | KPC_NCSI_Report_Web/src/main/java/com/ncsi/FileService.java:507-536 | a workbook yields as many records as it has rows over all sheets |
| Flatten.RowColumns | KPC_NCSI_Report_Web/src/main/java/com/ncsi/FileService.java:525-532 | the column loop builds exactly the column map (no keys when `lastCellNum <= 0`) |
| Flatten.ReadSheetRows | KPC_NCSI_Report_Web/src/main/java/com/ncsi/FileService.java:508-535 | the row loop appends the sheet's records |
| Flatten.ReadExcelFileContent | KPC_NCSI_Report_Web/src/main/java/com/ncsi/FileService.java:489-546 | appends the records of every sheet in index order; a file that cannot be parsed appends nothing |
| Flatten.ProcessAllExcelFilesContent | KPC_NCSI_Report_Web/src/main/java/com/ncsi/FileService.java:462-474 | appends the records of every spreadsheet file of the recursive walk, in walk order |
| Flatten.ContentFromEntry | KPC_NCSI_Report_Web/src/main/java/com/ncsi/FileService.java:464-472 | the same for one entry's subtree |
| Flatten.ProcessExcelFilesContentInDirectory | KPC_NCSI_Report_Web/src/main/java/com/ncsi/FileService.java:477-486 | the same for the immediate spreadsheet files |
| Flatten.GetFolderExcelDataForPowerBI | KPC_NCSI_Report_Web/src/main/java/com/ncsi/FileService.java:440-459 | folder-not-found error exactly when missing; otherwise the records of all selected files |
| Flatten.ExcelDataMembership | KPC_NCSI_Report_Web/src/main/java/com/ncsi/FileService.java:440-486 | a record is returned exactly when it comes from one selected file |
| Flatten.FileRowsMembership | KPC_NCSI_Report_Web/src/main/java/com/ncsi/FileService.java:489-536 | the records of a readable spreadsheet are exactly the records of its rows, with its name, relative path and sheet name |
| Flatten.UnreadableFileGivesNoRows | KPC_NCSI_Report_Web/src/main/java/com/ncsi/FileService.java:542-545 | a file whose parse fails contributes no records |
| Combine.CandidateLower | KPC_NCSI_Report_Web/src/main/java/com/ncsi/FileService.java:656 | the k-th retry name, lowered, is the lowered original followed by `_k` |
| Combine.CandidatesDistinct | KPC_NCSI_Report_Web/src/main/java/com/ncsi/FileService.java:653-657 | different retry numbers give names that differ even ignoring case |
| Combine.FirstFree | KPC_NCSI_Report_Web/src/main/java/com/ncsi/FileService.java:653-657 | the first retry number at or after `k` whose name is free: it is free, and every earlier one is taken |
| Combine.FreeNameExtends | KPC_NCSI_Report_Web/src/main/java/com/ncsi/FileService.java:650-657 | the chosen name starts with the name first tried |
| Combine.FreeName | KPC_NCSI_Report_Web/src/main/java/com/ncsi/FileService.java:650-657 | the chosen name is not yet in the workbook, and it is the original name when that one is free |
| Combine.CombinedWorkbook.constructor | KPC_NCSI_Report_Web/src/main/java/com/ncsi/FileService.java:582 | a new combined workbook has no sheets |
| Combine.CombinedWorkbook.HasSheet | KPC_NCSI_Report_Web/src/main/java/com/ncsi/FileService.java:655 | a name is present exactly when some sheet has it, ignoring case |
| Combine.CombinedWorkbook.CreateSheet | KPC_NCSI_Report_Web/src/main/java/com/ncsi/FileService.java:659 | appends one sheet with that name and those rows, changes nothing else, and keeps the sheet names pairwise distinct |
| Combine.UniqueSheetName | KPC_NCSI_Report_Web/src/main/java/com/ncsi/FileService.java:653-657 | the `counter++` loop ends with the first free name among `name`, `name_1`, `name_2`, … |
| Combine.AddExcelFileToWorkbook | KPC_NCSI_Report_Web/src/main/java/com/ncsi/FileService.java:630-671 | adds, for each source sheet in order, one sheet named `base_sheet` (made unique) holding a copy of its rows; an unparsable file adds nothing |
| Combine.CombineAllExcelFiles | KPC_NCSI_Report_Web/src/main/java/com/ncsi/FileService.java:603-615 | adds the sheets of every spreadsheet file of the recursive walk, in walk order |
| Combine.CombineEntry | KPC_NCSI_Report_Web/src/main/java/com/ncsi/FileService.java:605-613 | the same for one entry's subtree |
| Combine.CombineLevelEntry | KPC_NCSI_Report_Web/src/main/java/com/ncsi/FileService.java:621-624 | one child adds the sheets of its file exactly when it is a spreadsheet file that is not a directory, and keeps the names distinct |
| Combine.CombineExcelFilesInDirectory | KPC_NCSI_Report_Web/src/main/java/com/ncsi/FileService.java:618-627 | the same for the immediate spreadsheet files |
| Combine.CreateCombinedExcelFile | KPC_NCSI_Report_Web/src/main/java/com/ncsi/FileService.java:573-600 | folder-not-found error exactly when missing; otherwise the combined sheets of all selected files, starting from an empty workbook |
| Combine.CombineAllConcat | KPC_NCSI_Report_Web/src/main/java/com/ncsi/FileService.java:603-627 | combining two runs of files is combining the first, then the second |
| Combine.AppendFreshKeepsDistinct | KPC_NCSI_Report_Web/src/main/java/com/ncsi/FileService.java:655-659 | appending a sheet whose name is free keeps all names pairwise distinct |
| Combine.CopySheetsDistinct | KPC_NCSI_Report_Web/src/main/java/com/ncsi/FileService.java:648-661 | adding one file's sheets keeps names pairwise distinct (ignoring case) |
| Combine.CombineAllDistinct | KPC_NCSI_Report_Web/src/main/java/com/ncsi/FileService.java:603-627 | adding any run of files keeps names pairwise distinct |
| Combine.CopySheetsLength | KPC_NCSI_Report_Web/src/main/java/com/ncsi/FileService.java:648-661 | each source sheet adds exactly one sheet, and the earlier sheets are unchanged |
| Combine.CopySheetsAt | KPC_NCSI_Report_Web/src/main/java/com/ncsi/FileService.java:648-661 | the i-th added sheet holds the copied rows of the i-th source sheet, and its name starts with the base name, `_` and the source sheet's name |
| Combine.CombineAllCount | KPC_NCSI_Report_Web/src/main/java/com/ncsi/FileService.java:603-627 | the workbook grows by exactly the number of source sheets, keeping the earlier sheets as a prefix |
| Combine.CombinedWorkbookFacts | KPC_NCSI_Report_Web/src/main/java/com/ncsi/FileService.java:573-600 | the combined workbook has pairwise distinct sheet names and one sheet per source sheet |
| Spreadsheet.CopyRowsAsWrittenThrows | KPC_NCSI_Report_Web/src/main/java/com/ncsi/FileService.java:674-706 | copySheet as written throws exactly when the sheet holds a cell |
| Spreadsheet.CopyRowsAsWrittenWithoutCells | KPC_NCSI_Report_Web/src/main/java/com/ncsi/FileService.java:674-706 | a sheet without cells is copied, as written, exactly as intended |
| Spreadsheet.CopyRowsAsWrittenKeepsOneCell | KPC_NCSI_Report_Web/src/main/java/com/ncsi/FileService.java:674-706 | of a sheet with cells exactly one cell survives, alone in the last slot of the last row created, under the default style |
| Spreadsheet.FirstRowWithCell | KPC_NCSI_Report_Web/src/main/java/com/ncsi/FileService.java:675-679 | the index of the first row holding a cell: that row holds one and no earlier row does |
| Spreadsheet.CopyRowsAsWrittenFirstCell | KPC_NCSI_Report_Web/src/main/java/com/ncsi/FileService.java:674-706 | the surviving cell is the sheet's first: the rows before the first row holding a cell are copied whole, and the last row created has that row's index, one slot past the column of its first cell, no cell before, and there that cell's copied value, not date-formatted, under the default style |
| Combine.CopySheetsAsWrittenWithoutCells | KPC_NCSI_Report_Web/src/main/java/com/ncsi/FileService.java:646-669 | when no source sheet holds a cell, the file's sheets are copied as written exactly as intended |
| Combine.StyleCopyCutsFile | KPC_NCSI_Report_Web/src/main/java/com/ncsi/FileService.java:646-669 | a parsed file of two or more sheets whose first sheet holds a cell adds one sheet as written, where the intended copy adds one per sheet |

## Left out

- `FileController.java`, `NcsiApplication.java` and the user classes are HTTP routing, Spring bootstrap and a
  single database lookup. They hold no logic of their own.
- `uploadFile`, `deleteFile`, `createFolder` and `deleteDirectory` (FileService.java:60-119) write to the file
  system through `Files.*`. They only check that a path exists.
- Apache POI parsing, writing and serialisation to bytes are library calls. A parse is modelled by its
  outcome `book`. The combined workbook's conversion to a byte resource is not part of this model; its
  sheets are the result.
- `Spreadsheet.CopySheet`, `Combine.AddExcelFileToWorkbook` and the combining walks model the intended
  copy. In it a cell's style is an opaque number, carried over. As written, `setCellStyle` is given a style
  of another workbook and throws (see "## Findings"). `Spreadsheet.CopyRowsAsWritten` and
  `Combine.CopySheetsAsWritten` model that behaviour. Both assume every source cell carries a style of its
  own workbook.
- `Spreadsheet.CopyCell`: a date cell is copied through `java.util.Date` (FileService.java:686-687). POI
  converts the serial to a `Date` and back in the new workbook's 1900 date system. `ReencodedDate(d)`
  stands for the result and is not interpreted. Not modelled:
  - rounding to the millisecond,
  - the serial -1 that a value before 1900, such as a time-only 0.5, becomes,
  - the 1462-day shift of a serial from a 1904-system workbook.

  The copy is taken to stay date-formatted because its style is carried over. POI's `isCellDateFormatted`
  also needs a valid date, so a time-only copy re-encoded to -1 would display as a number. The combined
  workbook is never read back by the service.
- `Spreadsheet.CopyCellRoundTrip`: the exact round trip and idempotence are stated for non-date cells
  only, because a date's re-encoding is not interpreted.
- `Spreadsheet.CopyKeepsDisplay`: equal display strings are stated for non-date cells only. A copied
  date cell shows the date of the re-encoded serial.
- Floating-point and locale rendering are symbolic. This covers:
  - `String.valueOf(double)` and `Date.toString()` for numeric cells,
  - the `%.1f` text of `formatFileSize` (only the unit bucket and the exact bytes case are stated),
  - the ISO and `Date` texts of modification times (`LastModifiedFormatted`, the three date fields).
- Base64 encoding is symbolic: `Base64Of(bytes)` stands for the encoded text.
- `Path.resolve`/`relativize` string handling, `..` and separator normalisation are left out. Callers pass
  path segments, and relative paths are built with `/`.
- The `long` totals of `calculateDirectorySize` are unbounded naturals: overflow is left out.
- Case folding is ASCII only. `toLowerCase` on non-ASCII names is not modelled.
- `Ordering.SortBy`: sort stability of `List.sort` is not stated, only that the result is sorted and a
  permutation.
- POI's sheet-name rules (31 characters, forbidden characters) are not modelled. Creating a sheet is
  treated as always succeeding once the name is free.
- An exception part-way through one workbook leaves earlier rows or sheets in place. Apart from the
  style copy, the model covers only two cases: a file that parses (all of it is used) or does not
  (nothing is used).
- The I/O failures of `Files.size` and `Files.getLastModifiedTime` inside the per-file record builders are
  not modelled: metadata reads are taken to succeed.
- The row map of `readExcelFileContent` is a `HashMap`; its key order is not modelled (`Flatten.Columns` is a
  Dafny `map`).
- `processExcelFile` also records the formatted size and the `Date` text of the modification time; only the
  fields stated by `Describe.ExcelFileRecordFacts` are modelled.
- The order of a directory stream is unspecified. The model takes it as the given order of `children`.
- `Files.newDirectoryStream` fails on an unreadable directory (FileService.java:30, 135, 166, 227, 237 and
  every recursive walk). The failure propagates and fails the whole call.
  - In the model, `ListFiles`, `GetFoldersForPowerBI` and the `GetFolder*` operations fail only when the
    folder is not found.
  - `CalculateTotalSize` and `SearchFiles` never fail.
- `Files.size` and `Files.getLastModifiedTime` can throw, for example on a dangling symbolic link:
  - in `listFiles` (FileService.java:35-36),
  - in `calculateDirectorySize` (140),
  - in `searchInDirectory` (174-175),
  - in `getFoldersForPowerBI` (232-233).

  The model takes these reads to succeed.
- Symbolic links to directories are not modelled. `Files.isDirectory` follows them, so a link cycle makes
  every recursive walk recurse until a `StackOverflowError`. The recursive walks are at FileService.java
  132-146, 165-190, 258-284, 369-381, 462-474, 603-615, 729-739, 801-815 and 879-889. A finite `Entry`
  cannot represent a cycle.

## Findings

| source | as written | input that shows it | evidently intended | confidence | as-written member | corrected member |
|---|---|---|---|---|---|---|
| KPC_NCSI_Report_Web/src/main/java/com/ncsi/FileService.java:703 | `newCell.setCellStyle(sourceCell.getCellStyle())` passes a style of the source workbook to a cell of the combined workbook. POI's `XSSFCell.setCellStyle` refuses a style from another styles table with an `IllegalArgumentException`, and an HSSF style fails the cast with a `ClassCastException`. The first copied cell therefore throws. The catch at 667-669 then drops the rest of the file. | a spreadsheet file with two sheets whose first sheet holds one cell: one sheet is added, holding that cell alone | every sheet of every parsed file is copied whole, one combined sheet per source sheet | not executed; relies on POI's documented check in `setCellStyle` | Combine.StyleCopyCutsFile | Combine.CombineAllCount |
