/** The one-level listing, the recursive search, the recursive size sum and
    the folder summary of FileService, each a method that walks the tree as
    the source does and is proved against the walk of FileTree. */
module TreeWalker {
  import opened Wrappers
  import opened Strings
  import opened Seqs
  import opened Ordering
  import opened FileTree

  /** The IOException a top-level operation throws for a missing folder,
      with its message. */
  datatype ServiceError = IOError(message: string)

  /** The map listFiles and searchFiles build per entry: name, isDirectory,
      size (0 for a directory), lastModified, relativePath. */
  datatype FileInfo = FileInfo(name: string, isDirectory: bool, size: nat, lastModified: int, relativePath: string)

  function InfoOf(v: Visit): FileInfo
  {
    match v.entry
    case File(name, size, mtime, _, _) => FileInfo(name, false, size, mtime, v.RelativePath())
    case Dir(name, mtime, _) => FileInfo(name, true, 0, mtime, v.RelativePath())
  }

  /** The comparator of listFiles: directories first, then compareToIgnoreCase on names. */
  function ListingKey(f: FileInfo): SortKey
  {
    SortKey(if f.isDirectory then 0 else 1, Lower(f.name))
  }

  /** The comparator of searchFiles: compareToIgnoreCase on names. */
  function NameKey(f: FileInfo): SortKey
  {
    SortKey(0, Lower(f.name))
  }

  /** FileService.listFiles: one record per child of the folder, directories
      before files and each group in case-insensitive name order; a missing
      folder, or one that is not a directory, is an error. */
  method ListFiles(root: Entry, folder: seq<string>) returns (r: Result<seq<FileInfo>, ServiceError>)
    ensures r.Failure? <==> TargetDir(root, folder).None?
    ensures r.Failure? ==> r.error == IOError("Directory not found: " + PathString(folder))
    ensures r.Success? ==>
      multiset(r.value) == multiset(MapSeq(InfoOf, Level(TargetDir(root, folder).value.children, PathString(folder))))
    ensures r.Success? ==> forall i, j :: 0 <= i < j < |r.value| ==>
      r.value[i].isDirectory || !r.value[j].isDirectory
    ensures r.Success? ==> forall i, j :: 0 <= i < j < |r.value| && r.value[i].isDirectory == r.value[j].isDirectory ==>
      NameLeq(r.value[i].name, r.value[j].name)
  {
    var target := TargetDir(root, folder);
    if target.None? {
      return Failure(IOError("Directory not found: " + PathString(folder)));
    }
    var cs, dir := target.value.children, PathString(folder);
    var files: seq<FileInfo> := [];
    var i := 0;
    while i < |cs|
      invariant 0 <= i <= |cs|
      invariant |files| == i
      invariant forall k :: 0 <= k < i ==> files[k] == InfoOf(Visit(cs[k], dir))
    {
      files := files + [InfoOf(Visit(cs[i], dir))];
      i := i + 1;
    }
    MapSeqPointwise(InfoOf, Level(cs, dir));
    assert files == MapSeq(InfoOf, Level(cs, dir));
    var sorted := SortBy(files, ListingKey);
    assert forall f :: ListingKey(f).text == Lower(f.name);
    return Success(sorted);
  }

  /** calculateDirectorySize, as the source defines it: the sizes of the
      immediate files plus the sizes of the immediate subdirectories. */
  function DirectorySize(cs: seq<Entry>): nat
    decreases cs, 0
  {
    if cs == [] then 0 else DirectorySize(cs[..|cs| - 1]) + EntrySize(cs[|cs| - 1])
  }

  function EntrySize(c: Entry): nat
    decreases c, 1
  {
    if c.Dir? then DirectorySize(c.children) else c.size
  }

  /** The sum of the sizes of the files among the visits. */
  function SumFileSizes(vs: seq<Visit>): nat
  {
    if vs == [] then 0
    else
      var v := vs[|vs| - 1];
      SumFileSizes(vs[..|vs| - 1]) + (if v.entry.File? then v.entry.size else 0)
  }

  lemma {:induction false} SumFileSizesConcat(a: seq<Visit>, b: seq<Visit>)
    ensures SumFileSizes(a + b) == SumFileSizes(a) + SumFileSizes(b)
    decreases |b|
  {
    if b == [] {
      assert a + b == a;
    } else {
      assert (a + b)[..|a + b| - 1] == a + b[..|b| - 1];
      SumFileSizesConcat(a, b[..|b| - 1]);
    }
  }

  /** The directory size is the sum of the sizes of all files at every depth. */
  lemma {:induction false} DirectorySizeSumsAllFiles(cs: seq<Entry>, dir: string)
    ensures DirectorySize(cs) == SumFileSizes(WalkAll(cs, dir))
    decreases cs, 0
  {
    if cs != [] {
      var init, c := cs[..|cs| - 1], cs[|cs| - 1];
      DirectorySizeSumsAllFiles(init, dir);
      EntrySizeSumsAllFiles(c, dir);
      SumFileSizesConcat(WalkAll(init, dir), WalkFrom(c, dir));
    }
  }

  lemma {:induction false} EntrySizeSumsAllFiles(c: Entry, dir: string)
    ensures EntrySize(c) == SumFileSizes(WalkFrom(c, dir))
    decreases c, 1
  {
    var below := if c.Dir? then WalkAll(c.children, Join(dir, c.name)) else [];
    SumFileSizesConcat([Visit(c, dir)], below);
    assert [Visit(c, dir)][..0] == [];
    if c.Dir? {
      DirectorySizeSumsAllFiles(c.children, Join(dir, c.name));
    }
  }

  /** FileService.calculateDirectorySize. */
  method CalculateDirectorySize(d: Entry) returns (totalSize: nat)
    requires d.Dir?
    ensures totalSize == DirectorySize(d.children)
    decreases d
  {
    totalSize := 0;
    var cs := d.children;
    var i := 0;
    while i < |cs|
      invariant 0 <= i <= |cs|
      invariant totalSize == DirectorySize(cs[..i])
    {
      var c := cs[i];
      assert cs[..i + 1][..i] == cs[..i];
      if c.Dir? {
        var sub := CalculateDirectorySize(c);
        totalSize := totalSize + sub;
      } else {
        totalSize := totalSize + c.size;
      }
      i := i + 1;
    }
    assert cs[..i] == cs;
  }

  /** FileService.calculateTotalSize: the sum of the sizes of all files at
      every depth below the folder, and 0 for a missing folder or a path that
      is not a directory. */
  method CalculateTotalSize(root: Entry, folder: seq<string>) returns (total: nat)
    ensures TargetDir(root, folder).None? ==> total == 0
    ensures TargetDir(root, folder).Some? ==>
      total == SumFileSizes(WalkAll(TargetDir(root, folder).value.children, PathString(folder)))
  {
    var target := TargetDir(root, folder);
    if target.None? {
      return 0;
    }
    total := CalculateDirectorySize(target.value);
    DirectorySizeSumsAllFiles(target.value.children, PathString(folder));
  }

  /** `fileName.toLowerCase().contains(searchTerm)` for an already lower-cased term. */
  predicate NameMatches(v: Visit, loweredTerm: string)
  {
    Contains(Lower(v.entry.name), loweredTerm)
  }

  function MatchesTerm(loweredTerm: string): Visit -> bool
  {
    v => NameMatches(v, loweredTerm)
  }

  function MatchingVisits(cs: seq<Entry>, dir: string, loweredTerm: string): seq<Visit>
  {
    Filter(WalkAll(cs, dir), MatchesTerm(loweredTerm))
  }

  /** FileService.searchInDirectory: appends, in walk order, a record for
      every entry at any depth whose name matches. */
  method SearchInDirectory(d: Entry, dir: string, loweredTerm: string, acc: seq<FileInfo>)
    returns (results: seq<FileInfo>)
    requires d.Dir?
    ensures results == acc + MapSeq(InfoOf, MatchingVisits(d.children, dir, loweredTerm))
    decreases d, 0
  {
    var p := MatchesTerm(loweredTerm);
    results := acc;
    var cs := d.children;
    var i := 0;
    while i < |cs|
      invariant 0 <= i <= |cs|
      invariant results == acc + MapSeq(InfoOf, Filter(WalkAll(cs[..i], dir), p))
    {
      results := SearchEntry(cs[i], dir, loweredTerm, results);
      WalkAllStep(cs, i, dir);
      FilterConcat(WalkAll(cs[..i], dir), WalkFrom(cs[i], dir), p);
      MapSeqConcat(InfoOf, Filter(WalkAll(cs[..i], dir), p), Filter(WalkFrom(cs[i], dir), p));
      ConcatAssoc(acc, MapSeq(InfoOf, Filter(WalkAll(cs[..i], dir), p)), MapSeq(InfoOf, Filter(WalkFrom(cs[i], dir), p)));
      i := i + 1;
    }
    assert cs[..i] == cs;
  }

  /** The body of searchInDirectory for one entry: its record when its name
      matches, then, for a directory, the matches below it. */
  method SearchEntry(c: Entry, dir: string, loweredTerm: string, acc: seq<FileInfo>) returns (results: seq<FileInfo>)
    ensures results == acc + MapSeq(InfoOf, Filter(WalkFrom(c, dir), MatchesTerm(loweredTerm)))
    decreases c, 1
  {
    var p := MatchesTerm(loweredTerm);
    var v := Visit(c, dir);
    ghost var own := if p(v) then [v] else [];
    FilterWalkFrom(c, dir, p);
    MapSeqConcat(InfoOf, own, Filter(Below(c, dir), p));
    MapSeqSingleton(InfoOf, v, p(v));
    assert p(v) == Contains(Lower(c.name), loweredTerm);
    results := acc;
    if Contains(Lower(c.name), loweredTerm) {
      results := results + [InfoOf(v)];
    }
    if c.Dir? {
      results := SearchInDirectory(c, Join(dir, c.name), loweredTerm, results);
    }
    ConcatAssoc(acc, MapSeq(InfoOf, own), MapSeq(InfoOf, Filter(Below(c, dir), p)));
  }

  /** FileService.searchFiles: a record for exactly the entries at any depth
      whose lower-cased name contains the lower-cased term, sorted by name
      ignoring case; nothing for a missing folder. */
  method SearchFiles(root: Entry, searchTerm: string, folder: seq<string>) returns (r: seq<FileInfo>)
    ensures TargetDir(root, folder).None? ==> r == []
    ensures TargetDir(root, folder).Some? ==>
      multiset(r) == multiset(MapSeq(InfoOf, MatchingVisits(TargetDir(root, folder).value.children, PathString(folder), Lower(searchTerm))))
    ensures forall i, j :: 0 <= i < j < |r| ==> NameLeq(r[i].name, r[j].name)
  {
    var target := TargetDir(root, folder);
    if target.None? {
      return [];
    }
    var results := SearchInDirectory(target.value, PathString(folder), Lower(searchTerm), []);
    r := SortBy(results, NameKey);
  }

  /** The search keeps exactly the entries met at some depth whose name
      contains the term. */
  lemma SearchMatchesExactly(cs: seq<Entry>, dir: string, loweredTerm: string, v: Visit)
    ensures v in MatchingVisits(cs, dir, loweredTerm) <==> Reaches(cs, dir, v) && NameMatches(v, loweredTerm)
  {
    FilterMembership(WalkAll(cs, dir), MatchesTerm(loweredTerm), v);
    WalkAllReaches(cs, dir, v);
  }

  /** An empty search term matches every entry of the walk. */
  lemma {:induction false} EmptyTermMatchesAll(vs: seq<Visit>)
    ensures Filter(vs, MatchesTerm("")) == vs
  {
    if vs != [] {
      EmptyTermMatchesAll(vs[..|vs| - 1]);
      ContainsEmpty(Lower(vs[|vs| - 1].entry.name));
    }
  }

  /** The map getFoldersForPowerBI builds per subfolder (its date rendering left out). */
  datatype FolderRecord = FolderRecord(folderName: string, folderPath: string, lastModified: int, fileCount: nat)

  predicate IsFileEntry(e: Entry)
  {
    e.File?
  }

  predicate IsDirVisit(v: Visit)
  {
    v.entry.Dir?
  }

  /** The counting loop of getFoldersForPowerBI: the number of children that
      are not directories. */
  method CountFiles(cs: seq<Entry>) returns (fileCount: nat)
    ensures fileCount == |Filter(cs, IsFileEntry)|
  {
    fileCount := 0;
    var i := 0;
    while i < |cs|
      invariant 0 <= i <= |cs|
      invariant fileCount == |Filter(cs[..i], IsFileEntry)|
    {
      assert cs[..i + 1][..i] == cs[..i];
      if !cs[i].Dir? {
        fileCount := fileCount + 1;
      }
      i := i + 1;
    }
    assert cs[..i] == cs;
  }

  function FolderRecordOf(v: Visit): FolderRecord
  {
    FolderRecord(v.entry.name, v.RelativePath(), v.entry.lastModified,
      if v.entry.Dir? then |Filter(v.entry.children, IsFileEntry)| else 0)
  }

  function FolderKey(f: FolderRecord): SortKey
  {
    SortKey(0, Lower(f.folderName))
  }

  /** FileService.getFoldersForPowerBI: one record per immediate subfolder,
      with the number of its immediate non-directory children, sorted by
      folder name ignoring case; a missing parent folder is an error. */
  method GetFoldersForPowerBI(root: Entry, parent: seq<string>) returns (r: Result<seq<FolderRecord>, ServiceError>)
    ensures r.Failure? <==> TargetDir(root, parent).None?
    ensures r.Failure? ==> r.error == IOError("Parent folder not found: " + PathString(parent))
    ensures r.Success? ==>
      multiset(r.value) == multiset(MapSeq(FolderRecordOf, Filter(Level(TargetDir(root, parent).value.children, PathString(parent)), IsDirVisit)))
    ensures r.Success? ==> forall i, j :: 0 <= i < j < |r.value| ==> NameLeq(r.value[i].folderName, r.value[j].folderName)
  {
    var target := TargetDir(root, parent);
    if target.None? {
      return Failure(IOError("Parent folder not found: " + PathString(parent)));
    }
    var cs, dir := target.value.children, PathString(parent);
    var folders: seq<FolderRecord> := [];
    var i := 0;
    while i < |cs|
      invariant 0 <= i <= |cs|
      invariant folders == MapSeq(FolderRecordOf, Filter(Level(cs[..i], dir), IsDirVisit))
    {
      var c := cs[i];
      LevelStep(cs, i, dir);
      FilterSnoc(Level(cs[..i], dir), Visit(c, dir), IsDirVisit);
      MapSeqConcat(FolderRecordOf, Filter(Level(cs[..i], dir), IsDirVisit), if c.Dir? then [Visit(c, dir)] else []);
      if c.Dir? {
        var fileCount := CountFiles(c.children);
        folders := folders + [FolderRecord(c.name, Join(dir, c.name), c.lastModified, fileCount)];
      }
      i := i + 1;
    }
    assert cs[..i] == cs;
    var sorted := SortBy(folders, FolderKey);
    return Success(sorted);
  }
}
