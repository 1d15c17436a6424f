/** The file-description operations of FileService: the Power BI file
    listing, the per-spreadsheet descriptions (with download URL, with
    Base64 content, lightweight and limited, basic), the file-size text,
    and the walks that collect them. */
module Describe {
  import opened Wrappers
  import opened Strings
  import opened Seqs
  import opened FileTree
  import opened TreeWalker

  /** The map collectAllFiles and collectFilesInDirectory build per entry. */
  datatype FileNode = FileNode(
    name: string, isDirectory: bool, size: nat, lastModified: int,
    relativePath: string, folderPath: string)

  function NodeOf(v: Visit): FileNode
  {
    FileNode(v.entry.name, v.entry.Dir?, if v.entry.File? then v.entry.size else 0,
      v.entry.lastModified, v.RelativePath(), FolderPath(v.RelativePath()))
  }

  /** The folder a node reports is the directory that holds it, and its
      relative path is that folder joined with its name. */
  lemma NodeFolderIsParent(v: Visit)
    requires ValidName(v.entry.name)
    ensures NodeOf(v).folderPath == v.dirPath
    ensures NodeOf(v).relativePath == Join(NodeOf(v).folderPath, NodeOf(v).name)
  {
    FolderPathOfJoin(v.dirPath, v.entry.name);
  }

  /** FileService.collectAllFiles: a node for every entry at every depth, in
      walk order, appended to what was collected before. */
  method CollectAllFiles(d: Entry, dir: string, acc: seq<FileNode>) returns (out: seq<FileNode>)
    requires d.Dir?
    ensures out == acc + MapSeq(NodeOf, WalkAll(d.children, dir))
    decreases d, 0
  {
    out := acc;
    var cs := d.children;
    var i := 0;
    while i < |cs|
      invariant 0 <= i <= |cs|
      invariant out == acc + MapSeq(NodeOf, WalkAll(cs[..i], dir))
    {
      out := CollectEntry(cs[i], dir, out);
      WalkAllStep(cs, i, dir);
      MapSeqConcat(NodeOf, WalkAll(cs[..i], dir), WalkFrom(cs[i], dir));
      ConcatAssoc(acc, MapSeq(NodeOf, WalkAll(cs[..i], dir)), MapSeq(NodeOf, WalkFrom(cs[i], dir)));
      i := i + 1;
    }
    assert cs[..i] == cs;
  }

  /** The body of collectAllFiles for one entry: its node, then, for a
      directory, the nodes below it. */
  method CollectEntry(c: Entry, dir: string, acc: seq<FileNode>) returns (out: seq<FileNode>)
    ensures out == acc + MapSeq(NodeOf, WalkFrom(c, dir))
    decreases c, 1
  {
    var v := Visit(c, dir);
    assert WalkFrom(c, dir) == [v] + Below(c, dir);
    MapSeqConcat(NodeOf, [v], Below(c, dir));
    MapSeqSingleton(NodeOf, v, true);
    out := acc + [NodeOf(v)];
    if c.Dir? {
      out := CollectAllFiles(c, Join(dir, c.name), out);
    }
    ConcatAssoc(acc, [NodeOf(v)], MapSeq(NodeOf, Below(c, dir)));
  }

  /** FileService.collectFilesInDirectory: a node for every child, in order. */
  method CollectFilesInDirectory(d: Entry, dir: string, acc: seq<FileNode>) returns (out: seq<FileNode>)
    requires d.Dir?
    ensures out == acc + MapSeq(NodeOf, Level(d.children, dir))
  {
    out := acc;
    var cs := d.children;
    var i := 0;
    while i < |cs|
      invariant 0 <= i <= |cs|
      invariant out == acc + MapSeq(NodeOf, Level(cs[..i], dir))
    {
      LevelStep(cs, i, dir);
      MapSeqConcat(NodeOf, Level(cs[..i], dir), [Visit(cs[i], dir)]);
      out := out + [NodeOf(Visit(cs[i], dir))];
      i := i + 1;
    }
    assert cs[..i] == cs;
  }

  datatype SizeUnit = KB | MB | GB

  function UnitBytes(u: SizeUnit): nat
  {
    match u
    case KB => 1024
    case MB => 1024 * 1024
    case GB => 1024 * 1024 * 1024
  }

  /** The text formatFileSize returns: "<bytes> B" exactly, or the size
      scaled to a unit and printed with `%.1f`; the printed digits of the
      quotient are not modelled, only the size and the unit chosen. */
  datatype SizeText = Exact(text: string) | Scaled(bytes: nat, unit: SizeUnit)

  /** FileService.formatFileSize: bytes below 1 KB are printed exactly;
      otherwise the unit is the largest of KB, MB, GB not above the size. */
  function FormatFileSize(bytes: nat): (r: SizeText)
    ensures r.Exact? <==> bytes < 1024
    ensures r.Exact? ==> r.text == DecimalString(bytes) + " B"
    ensures r.Scaled? ==> r.bytes == bytes && UnitBytes(r.unit) <= bytes
    ensures r.Scaled? && r.unit != GB ==> bytes < 1024 * UnitBytes(r.unit)
  {
    if bytes < 1024 then Exact(DecimalString(bytes) + " B")
    else if bytes < 1024 * 1024 then Scaled(bytes, KB)
    else if bytes < 1024 * 1024 * 1024 then Scaled(bytes, MB)
    else Scaled(bytes, GB)
  }

  /** The map convertToPowerBIFormat builds (its date text left out). */
  datatype PowerBIRecord = PowerBIRecord(
    fileName: string, isDirectory: bool, fileSize: nat, lastModified: int,
    relativePath: string, folderPath: string, fileExtension: string, fileSizeFormatted: SizeText)

  /** FileService.convertToPowerBIFormat: the node's fields renamed, plus the
      lower-cased extension of a file (none for a directory) and the size text. */
  function ConvertToPowerBIFormat(n: FileNode): (r: PowerBIRecord)
    ensures r.fileName == n.name && r.isDirectory == n.isDirectory && r.fileSize == n.size
    ensures r.lastModified == n.lastModified && r.relativePath == n.relativePath && r.folderPath == n.folderPath
    ensures r.fileExtension != "" ==> !n.isDirectory && '.' in n.name
    ensures r.fileExtension == Lower(r.fileExtension)
    ensures !n.isDirectory && '.' in n.name ==> Lower(ExtensionWithDot(n.name)) == "." + r.fileExtension
    ensures r.fileSizeFormatted == FormatFileSize(n.size)
  {
    var extension := if !n.isDirectory && '.' in n.name then ExtensionLower(n.name) else "";
    ExtensionFacts(n.name);
    PowerBIRecord(n.name, n.isDirectory, n.size, n.lastModified, n.relativePath, n.folderPath,
      extension, FormatFileSize(n.size))
  }

  /** The lower-cased extension is lower-case, and it is the dotted extension
      lower-cased without its dot. */
  lemma ExtensionFacts(name: string)
    ensures ExtensionLower(name) == Lower(ExtensionLower(name))
    ensures '.' in name ==> Lower(ExtensionWithDot(name)) == "." + ExtensionLower(name)
  {
    ExtensionConventions(name);
    var k := LastIndexOf(name, '.');
    if k >= 0 {
      LowerIdempotent(name[k + 1..]);
      var e := ExtensionWithDot(name);
      assert e == [e[0]] + e[1..];
      LowerConcat([e[0]], e[1..]);
      LowerCharKeepsPunctuation('.');
      assert Lower([e[0]]) == ".";
    }
  }

  /** The scope of a folder operation: every entry below the folder, or its
      children only. */
  function Scope(cs: seq<Entry>, dir: string, includeSubfolders: bool): seq<Visit>
  {
    if includeSubfolders then WalkAll(cs, dir) else Level(cs, dir)
  }

  /** The spreadsheet files a folder operation hands to its per-file step. */
  function CandidateScope(cs: seq<Entry>, dir: string, includeSubfolders: bool): seq<Visit>
  {
    if includeSubfolders then Candidates(cs, dir) else LevelCandidates(cs, dir)
  }

  function FolderNotFound(folder: seq<string>): ServiceError
  {
    IOError("Folder not found: " + PathString(folder))
  }

  /** FileService.getFolderFilesForPowerBI: one record for every entry in
      scope, in walk order; a missing folder is an error. */
  method GetFolderFilesForPowerBI(root: Entry, folder: seq<string>, includeSubfolders: bool)
    returns (r: Result<seq<PowerBIRecord>, ServiceError>)
    ensures r.Failure? <==> TargetDir(root, folder).None?
    ensures r.Failure? ==> r.error == FolderNotFound(folder)
    ensures r.Success? ==> r.value == MapSeq(ConvertToPowerBIFormat,
      MapSeq(NodeOf, Scope(TargetDir(root, folder).value.children, PathString(folder), includeSubfolders)))
  {
    var target := TargetDir(root, folder);
    if target.None? {
      return Failure(FolderNotFound(folder));
    }
    var cs, dir := target.value.children, PathString(folder);
    var nodes: seq<FileNode>;
    if includeSubfolders {
      nodes := CollectAllFiles(target.value, dir, []);
      assert [] + MapSeq(NodeOf, WalkAll(cs, dir)) == MapSeq(NodeOf, Scope(cs, dir, includeSubfolders));
    } else {
      nodes := CollectFilesInDirectory(target.value, dir, []);
      assert [] + MapSeq(NodeOf, Level(cs, dir)) == MapSeq(NodeOf, Scope(cs, dir, includeSubfolders));
    }
    var records := MapAll(ConvertToPowerBIFormat, nodes);
    return Success(records);
  }

  /** `stream().map(f).collect(toList())`. */
  method MapAll<A, B>(f: A -> B, s: seq<A>) returns (r: seq<B>)
    ensures r == MapSeq(f, s)
  {
    r := [];
    var i := 0;
    while i < |s|
      invariant 0 <= i <= |s|
      invariant r == MapSeq(f, s[..i])
    {
      assert s[..i + 1][..i] == s[..i];
      r := r + [f(s[i])];
      i := i + 1;
    }
    assert s[..i] == s;
  }

  /** The Power BI listing holds a record for exactly the entries the walk
      reaches (at every depth) or the folder's children (one level). */
  lemma PowerBIListingCoversScope(cs: seq<Entry>, dir: string, includeSubfolders: bool, v: Visit)
    ensures includeSubfolders ==> (v in Scope(cs, dir, includeSubfolders) <==> Reaches(cs, dir, v))
    ensures !includeSubfolders ==> (v in Scope(cs, dir, includeSubfolders) <==> v.dirPath == dir && v.entry in cs)
    ensures v in Scope(cs, dir, includeSubfolders) ==>
      ConvertToPowerBIFormat(NodeOf(v)) in MapSeq(ConvertToPowerBIFormat, MapSeq(NodeOf, Scope(cs, dir, includeSubfolders)))
  {
    WalkAllReaches(cs, dir, v);
    var s := Scope(cs, dir, includeSubfolders);
    if v in s {
      var i :| 0 <= i < |s| && s[i] == v;
      MapSeqMembership(NodeOf, s, NodeOf(v));
      MapSeqMembership(ConvertToPowerBIFormat, MapSeq(NodeOf, s), ConvertToPowerBIFormat(NodeOf(v)));
      MapSeqPointwise(NodeOf, s);
      assert MapSeq(NodeOf, s)[i] == NodeOf(v);
    }
    if !includeSubfolders && v.dirPath == dir && v.entry in cs {
      var i :| 0 <= i < |cs| && cs[i] == v.entry;
      assert Level(cs, dir)[i] == v;
    }
  }

  const DownloadBase: string := "http://13.237.218.10/api/files/powerbi/file?filePath="

  /** The map processExcelFile builds per spreadsheet file (its date text left out). */
  datatype ExcelFileRecord = ExcelFileRecord(
    fileName: string, relativePath: string, fileSize: nat, fileSizeFormatted: SizeText,
    lastModified: int, folderPath: string, fileExtension: string, downloadUrl: string)

  /** FileService.processExcelFile on a spreadsheet file. */
  function ExcelFileRecordOf(v: Visit): ExcelFileRecord
  {
    var size := if v.entry.File? then v.entry.size else 0;
    ExcelFileRecord(v.entry.name, v.RelativePath(), size, FormatFileSize(size), v.entry.lastModified,
      FolderPath(v.RelativePath()), ExtensionLower(v.entry.name), DownloadBase + v.RelativePath())
  }

  /** The record of a spreadsheet file names it, points to it by a download
      URL that ends in its relative path, and reports the directory holding
      it and its lower-cased extension, which is "xlsx" or "xls". */
  lemma ExcelFileRecordFacts(v: Visit)
    requires IsCandidate(v) && ValidName(v.entry.name)
    ensures ExcelFileRecordOf(v).downloadUrl == DownloadBase + ExcelFileRecordOf(v).relativePath
    ensures ExcelFileRecordOf(v).relativePath == Join(ExcelFileRecordOf(v).folderPath, ExcelFileRecordOf(v).fileName)
    ensures ExcelFileRecordOf(v).folderPath == v.dirPath
    ensures ExcelFileRecordOf(v).fileExtension in {"xlsx", "xls"}
    ensures ExcelFileRecordOf(v).fileSize == v.entry.size
  {
    FolderPathOfJoin(v.dirPath, v.entry.name);
    IsExcelFileIffExtension(v.entry.name);
  }

  /** The Content field: the Base64 text of the bytes read, or "" when they
      cannot be read or are not included. */
  datatype Content = NoContent | Base64Of(bytes: seq<byte>)

  function ContentOf(e: Entry): Content
  {
    if e.File? && e.data.Some? then Base64Of(e.data.value) else NoContent
  }

  /** The constant Attributes map of a Power BI compatible record. */
  datatype Attributes = Attributes(directory: bool, archive: bool)

  /** The map createFileInfoForPowerBI builds: Power BI's Folder.Files row. */
  datatype CompatibleRecord = CompatibleRecord(
    name: string, extension: string, dateAccessed: int, dateModified: int, dateCreated: int,
    attributes: Attributes, folderPath: string, content: Content)

  /** FileService.createFileInfoForPowerBI: the three dates all come from the
      modification time, the attributes are fixed, the folder is the
      directory holding the file, and the content is the file's bytes when
      they can be read. */
  function CompatibleRecordOf(v: Visit): (r: CompatibleRecord)
    ensures r.dateAccessed == r.dateModified == r.dateCreated == v.entry.lastModified
    ensures r.attributes == Attributes(false, true)
    ensures r.folderPath == v.dirPath
    ensures r.content.Base64Of? <==> v.entry.File? && v.entry.data.Some?
    ensures r.content.Base64Of? ==> r.content.bytes == v.entry.data.value
  {
    var t := v.entry.lastModified;
    CompatibleRecord(v.entry.name, ExtensionWithDot(v.entry.name), t, t, t,
      Attributes(false, true), v.dirPath, ContentOf(v.entry))
  }

  /** Files at or above this size get no content in the lightweight record. */
  const ContentSizeLimit: nat := 10 * 1024 * 1024

  /** The map createFileInfoLightweight builds. */
  datatype LightRecord = LightRecord(name: string, extension: string, dateModified: int, folderPath: string, content: Content)

  /** FileService.createFileInfoLightweight: content only for a readable
      file under 10 MiB. */
  function LightRecordOf(v: Visit): (r: LightRecord)
    ensures r.content.Base64Of? <==> v.entry.File? && v.entry.data.Some? && v.entry.size < ContentSizeLimit
    ensures r.content.Base64Of? ==> r.content.bytes == v.entry.data.value
    ensures r.folderPath == v.dirPath && r.dateModified == v.entry.lastModified
  {
    var content := if v.entry.File? && v.entry.size < ContentSizeLimit then ContentOf(v.entry) else NoContent;
    LightRecord(v.entry.name, ExtensionWithDot(v.entry.name), v.entry.lastModified, v.dirPath, content)
  }

  /** The lightweight record is the compatible record without the access and
      creation dates and attributes, with content withheld from large files. */
  lemma LightIsCompatibleTrimmed(v: Visit)
    ensures LightRecordOf(v).name == CompatibleRecordOf(v).name
    ensures LightRecordOf(v).extension == CompatibleRecordOf(v).extension
    ensures LightRecordOf(v).folderPath == CompatibleRecordOf(v).folderPath
    ensures LightRecordOf(v).content == if v.entry.File? && v.entry.size < ContentSizeLimit then CompatibleRecordOf(v).content else NoContent
  {
  }

  /** The map createFileInfoBasic builds. */
  datatype BasicRecord = BasicRecord(name: string, relativePath: string, extension: string, size: nat, lastModified: int)

  function BasicRecordOf(v: Visit): BasicRecord
  {
    BasicRecord(v.entry.name, v.RelativePath(), ExtensionWithDot(v.entry.name),
      if v.entry.File? then v.entry.size else 0, v.entry.lastModified)
  }

  /** A basic record of a spreadsheet file: its relative path lies in the
      visited folder, its dotted extension completes the base name, and that
      extension is `.xlsx` or `.xls` up to case. */
  lemma BasicRecordFacts(v: Visit)
    requires IsCandidate(v) && ValidName(v.entry.name)
    ensures FolderPath(BasicRecordOf(v).relativePath) == v.dirPath
    ensures BaseName(BasicRecordOf(v).name) + BasicRecordOf(v).extension == v.entry.name
    ensures Lower(BasicRecordOf(v).extension) == "." + ExtensionLower(v.entry.name)
    ensures ExtensionLower(v.entry.name) in {"xlsx", "xls"}
    ensures BasicRecordOf(v).size == v.entry.size
  {
    FolderPathOfJoin(v.dirPath, v.entry.name);
    ExcelFileHasExcelExtension(v.entry.name);
    DottedExtensionOf(v.entry.name, ExtensionLower(v.entry.name));
  }

  /** A name with a non-empty lower-case extension `e` has the dotted
      extension `.e` up to case, and that dotted extension completes the
      base name. */
  lemma DottedExtensionOf(name: string, e: string)
    requires ExtensionLower(name) == e && e != ""
    ensures BaseName(name) + ExtensionWithDot(name) == name
    ensures Lower(ExtensionWithDot(name)) == "." + e
  {
    ExtensionConventions(name);
    ExtensionFacts(name);
  }

  /** The recursive walks processAllExcelFiles, collectFilesForPowerBI and
      collectFileListOnly: descend into directories, and append the per-file
      record of every spreadsheet file, in walk order. */
  method CollectCandidates<R>(d: Entry, dir: string, perFile: Visit -> R, acc: seq<R>) returns (out: seq<R>)
    requires d.Dir?
    ensures out == acc + MapSeq(perFile, Candidates(d.children, dir))
    decreases d, 0
  {
    out := acc;
    var cs := d.children;
    var i := 0;
    while i < |cs|
      invariant 0 <= i <= |cs|
      invariant out == acc + MapSeq(perFile, Candidates(cs[..i], dir))
    {
      ghost var before := out;
      out := CollectFromEntry(cs[i], dir, perFile, out);
      CandidatesStep(cs, i, dir);
      MapSeqConcat(perFile, Candidates(cs[..i], dir), CandidatesFrom(cs[i], dir));
      ConcatAssoc(acc, MapSeq(perFile, Candidates(cs[..i], dir)), MapSeq(perFile, CandidatesFrom(cs[i], dir)));
      i := i + 1;
    }
    assert cs[..i] == cs;
  }

  /** The body of those walks for one entry: recurse into a directory, hand a
      spreadsheet file to the per-file step, skip anything else. */
  method CollectFromEntry<R>(c: Entry, dir: string, perFile: Visit -> R, acc: seq<R>) returns (out: seq<R>)
    ensures out == acc + MapSeq(perFile, CandidatesFrom(c, dir))
    decreases c, 1
  {
    if c.Dir? {
      out := CollectCandidates(c, Join(dir, c.name), perFile, acc);
    } else if IsExcelFile(c.name) {
      MapSeqSingleton(perFile, Visit(c, dir), true);
      out := acc + [perFile(Visit(c, dir))];
    } else {
      out := acc;
    }
  }

  /** The single-level walks processExcelFilesInDirectory,
      collectFilesInDirectoryForPowerBI and collectFileListInDirectoryOnly:
      the per-file record of every spreadsheet file among the children. */
  method CollectLevelCandidates<R>(d: Entry, dir: string, perFile: Visit -> R, acc: seq<R>) returns (out: seq<R>)
    requires d.Dir?
    ensures out == acc + MapSeq(perFile, LevelCandidates(d.children, dir))
  {
    out := acc;
    var cs := d.children;
    var i := 0;
    while i < |cs|
      invariant 0 <= i <= |cs|
      invariant out == acc + MapSeq(perFile, LevelCandidates(cs[..i], dir))
    {
      out := CollectLevelEntry(cs[i], dir, perFile, out);
      LevelMapStep(cs, i, dir, perFile);
      ConcatAssoc(acc, MapSeq(perFile, LevelCandidates(cs[..i], dir)), LevelOwn(cs[i], dir, perFile));
      i := i + 1;
    }
    assert cs[..i] == cs;
  }

  /** Mapping the single-level candidates of one more child. */
  lemma LevelMapStep<R>(cs: seq<Entry>, i: nat, dir: string, f: Visit -> R)
    requires i < |cs|
    ensures MapSeq(f, LevelCandidates(cs[..i + 1], dir)) == MapSeq(f, LevelCandidates(cs[..i], dir)) + LevelOwn(cs[i], dir, f)
  {
    var c := cs[i];
    var own := if c.File? && IsExcelFile(c.name) then [Visit(c, dir)] else [];
    LevelCandidatesStep(cs, i, dir);
    MapSeqConcat(f, LevelCandidates(cs[..i], dir), own);
    MapSeqSingleton(f, Visit(c, dir), c.File? && IsExcelFile(c.name));
  }

  /** The walk of both variants, on a target folder already resolved. */
  method CollectInScope<R>(d: Entry, dir: string, includeSubfolders: bool, perFile: Visit -> R) returns (out: seq<R>)
    requires d.Dir?
    ensures out == MapSeq(perFile, CandidateScope(d.children, dir, includeSubfolders))
  {
    if includeSubfolders {
      out := CollectCandidates(d, dir, perFile, []);
    } else {
      out := CollectLevelCandidates(d, dir, perFile, []);
    }
  }

  /** FileService.getFolderDataForPowerBI: one file record per spreadsheet file in scope. */
  method GetFolderDataForPowerBI(root: Entry, folder: seq<string>, includeSubfolders: bool)
    returns (r: Result<seq<ExcelFileRecord>, ServiceError>)
    ensures r.Failure? <==> TargetDir(root, folder).None?
    ensures r.Failure? ==> r.error == FolderNotFound(folder)
    ensures r.Success? ==>
      r.value == MapSeq(ExcelFileRecordOf, CandidateScope(TargetDir(root, folder).value.children, PathString(folder), includeSubfolders))
  {
    var target := TargetDir(root, folder);
    if target.None? {
      return Failure(FolderNotFound(folder));
    }
    var records := CollectInScope(target.value, PathString(folder), includeSubfolders, ExcelFileRecordOf);
    return Success(records);
  }

  /** FileService.getFolderFilesCompatible: one Folder.Files row per spreadsheet file in scope. */
  method GetFolderFilesCompatible(root: Entry, folder: seq<string>, includeSubfolders: bool)
    returns (r: Result<seq<CompatibleRecord>, ServiceError>)
    ensures r.Failure? <==> TargetDir(root, folder).None?
    ensures r.Failure? ==> r.error == FolderNotFound(folder)
    ensures r.Success? ==>
      r.value == MapSeq(CompatibleRecordOf, CandidateScope(TargetDir(root, folder).value.children, PathString(folder), includeSubfolders))
  {
    var target := TargetDir(root, folder);
    if target.None? {
      return Failure(FolderNotFound(folder));
    }
    var records := CollectInScope(target.value, PathString(folder), includeSubfolders, CompatibleRecordOf);
    return Success(records);
  }

  /** FileService.getFolderFileListOnly: one basic record per spreadsheet file in scope. */
  method GetFolderFileListOnly(root: Entry, folder: seq<string>, includeSubfolders: bool)
    returns (r: Result<seq<BasicRecord>, ServiceError>)
    ensures r.Failure? <==> TargetDir(root, folder).None?
    ensures r.Failure? ==> r.error == FolderNotFound(folder)
    ensures r.Success? ==>
      r.value == MapSeq(BasicRecordOf, CandidateScope(TargetDir(root, folder).value.children, PathString(folder), includeSubfolders))
  {
    var target := TargetDir(root, folder);
    if target.None? {
      return Failure(FolderNotFound(folder));
    }
    var records := CollectInScope(target.value, PathString(folder), includeSubfolders, BasicRecordOf);
    return Success(records);
  }

  /** The spreadsheet walks hand over exactly the spreadsheet files reached
      (recursive variant) or the spreadsheet files among the children (one
      level), and the single-level ones are among the recursive ones. */
  lemma CandidateScopeMembership(cs: seq<Entry>, dir: string, includeSubfolders: bool, v: Visit)
    ensures includeSubfolders ==>
      (v in CandidateScope(cs, dir, includeSubfolders) <==> Reaches(cs, dir, v) && IsCandidate(v))
    ensures !includeSubfolders ==>
      (v in CandidateScope(cs, dir, includeSubfolders) <==> v.dirPath == dir && v.entry in cs && IsCandidate(v))
    ensures v in CandidateScope(cs, dir, false) ==> v in CandidateScope(cs, dir, true)
  {
    CandidateMembership(cs, dir, v);
    LevelCandidatesFilterLevel(cs, dir);
    FilterMembership(Level(cs, dir), IsCandidate, v);
    if v in LevelCandidates(cs, dir) {
      LevelCandidatesAreCandidates(cs, dir, v);
    }
    if v.dirPath == dir && v.entry in cs {
      var i :| 0 <= i < |cs| && cs[i] == v.entry;
      assert Level(cs, dir)[i] == v;
    }
  }

  /** FileService.collectFilesLimited, with createFileInfoLightweight as the
      per-file step: the recursive walk that stops adding once the list holds
      maxFiles records; what it appends is the longest prefix of the
      unlimited walk's records that the limit allows. */
  method CollectFilesLimited<R>(d: Entry, dir: string, perFile: Visit -> R, maxFiles: int, acc: seq<R>) returns (out: seq<R>)
    requires d.Dir?
    ensures out == acc + Take(MapSeq(perFile, Candidates(d.children, dir)), maxFiles - |acc|)
    decreases d, 0
  {
    if |acc| >= maxFiles {
      assert acc + [] == acc;
      return acc;
    }
    out := acc;
    var cs := d.children;
    ghost var n := maxFiles - |acc|;
    var i := 0;
    while i < |cs|
      invariant 0 <= i <= |cs|
      invariant out == acc + Take(MapSeq(perFile, Candidates(cs[..i], dir)), n)
    {
      if |out| >= maxFiles {
        LimitReached(cs, i, dir, perFile, n);
        return;
      }
      ghost var kept := Take(MapSeq(perFile, Candidates(cs[..i], dir)), n);
      ghost var added := Take(MapSeq(perFile, CandidatesFrom(cs[i], dir)), maxFiles - |out|);
      out := CollectEntryLimited(cs[i], dir, perFile, maxFiles, out);
      LimitedStep(cs, i, dir, perFile, n);
      ConcatAssoc(acc, kept, added);
      i := i + 1;
    }
    assert cs[..i] == cs;
  }

  /** The body of collectFilesLimited for one entry, reached while the list
      is below the limit: recurse into a directory, add a spreadsheet file. */
  method CollectEntryLimited<R>(c: Entry, dir: string, perFile: Visit -> R, maxFiles: int, acc: seq<R>) returns (out: seq<R>)
    requires |acc| < maxFiles
    ensures out == acc + Take(MapSeq(perFile, CandidatesFrom(c, dir)), maxFiles - |acc|)
    decreases c, 1
  {
    if c.Dir? {
      out := CollectFilesLimited(c, Join(dir, c.name), perFile, maxFiles, acc);
    } else {
      OwnContribution(c, dir, perFile, maxFiles - |acc|);
      if IsExcelFile(c.name) {
        out := acc + [perFile(Visit(c, dir))];
      } else {
        out := acc;
      }
    }
  }

  /** One more child while the limit is not reached: the kept records grow by
      the child's own, cut to what the limit leaves. */
  lemma LimitedStep<R>(cs: seq<Entry>, i: nat, dir: string, f: Visit -> R, n: int)
    requires i < |cs|
    requires |Take(MapSeq(f, Candidates(cs[..i], dir)), n)| < n
    ensures Take(MapSeq(f, Candidates(cs[..i + 1], dir)), n) ==
      Take(MapSeq(f, Candidates(cs[..i], dir)), n)
      + Take(MapSeq(f, CandidatesFrom(cs[i], dir)), n - |Take(MapSeq(f, Candidates(cs[..i], dir)), n)|)
  {
    var prefix := MapSeq(f, Candidates(cs[..i], dir));
    CandidatesStep(cs, i, dir);
    MapSeqConcat(f, Candidates(cs[..i], dir), CandidatesFrom(cs[i], dir));
    assert Take(prefix, n) == prefix;
    TakeStep(prefix, MapSeq(f, CandidatesFrom(cs[i], dir)), n);
  }

  /** What a child that is not a directory contributes, with room left for at
      least one record: its own record when it is a spreadsheet file. */
  lemma OwnContribution<R>(c: Entry, dir: string, f: Visit -> R, k: int)
    requires !c.Dir? && k > 0
    ensures Take(MapSeq(f, CandidatesFrom(c, dir)), k) == if IsExcelFile(c.name) then [f(Visit(c, dir))] else []
  {
    MapSeqSingleton(f, Visit(c, dir), IsExcelFile(c.name));
  }

  /** Once the records of the first i children fill the limit, the records of
      all children cut to the limit are those same records. */
  lemma LimitReached<R>(cs: seq<Entry>, i: nat, dir: string, f: Visit -> R, n: int)
    requires i <= |cs|
    requires n <= |Take(MapSeq(f, Candidates(cs[..i], dir)), n)|
    ensures Take(MapSeq(f, Candidates(cs, dir)), n) == Take(MapSeq(f, Candidates(cs[..i], dir)), n)
  {
    var p, q := Candidates(cs[..i], dir), Candidates(cs[i..], dir);
    CandidatesSplit(cs, i, dir);
    MapSeqConcat(f, p, q);
    TakeFull(MapSeq(f, p), MapSeq(f, q), n);
  }

  /** FileService.collectFilesInDirectoryLimited, with
      createFileInfoLightweight as the per-file step: the single-level walk
      that stops once the list holds maxFiles records. */
  method CollectFilesInDirectoryLimited<R>(d: Entry, dir: string, perFile: Visit -> R, maxFiles: int, acc: seq<R>) returns (out: seq<R>)
    requires d.Dir?
    ensures out == acc + Take(MapSeq(perFile, LevelCandidates(d.children, dir)), maxFiles - |acc|)
  {
    out := acc;
    var cs := d.children;
    ghost var n := maxFiles - |acc|;
    var i := 0;
    assert Take(MapSeq(perFile, LevelCandidates(cs[..0], dir)), n) == [] by {
      assert cs[..0] == [];
    }
    while i < |cs|
      invariant 0 <= i <= |cs|
      invariant out == acc + Take(MapSeq(perFile, LevelCandidates(cs[..i], dir)), n)
    {
      if |out| >= maxFiles {
        assert out == acc + Take(MapSeq(perFile, LevelCandidates(cs, dir)), n) by {
          LevelLimitReached(cs, i, dir, perFile, n);
        }
        return;
      }
      ghost var kept := Take(MapSeq(perFile, LevelCandidates(cs[..i], dir)), n);
      out := CollectLevelEntry(cs[i], dir, perFile, out);
      assert out == acc + Take(MapSeq(perFile, LevelCandidates(cs[..i + 1], dir)), n) by {
        LevelLimitedStep(cs, i, dir, perFile, n);
        ConcatAssoc(acc, kept, LevelOwn(cs[i], dir, perFile));
      }
      i := i + 1;
    }
    assert cs[..i] == cs;
  }

  /** The record a child gives in a single-level walk: its own, when it is a
      spreadsheet file. */
  function LevelOwn<R>(c: Entry, dir: string, perFile: Visit -> R): seq<R>
  {
    if c.File? && IsExcelFile(c.name) then [perFile(Visit(c, dir))] else []
  }

  /** The body of the single-level walks for one child. */
  method CollectLevelEntry<R>(c: Entry, dir: string, perFile: Visit -> R, acc: seq<R>) returns (out: seq<R>)
    ensures out == acc + LevelOwn(c, dir, perFile)
  {
    if !c.Dir? && IsExcelFile(c.name) {
      out := acc + [perFile(Visit(c, dir))];
    } else {
      out := acc;
    }
  }

  /** One more child of the single-level walk while the limit is not reached. */
  lemma LevelLimitedStep<R>(cs: seq<Entry>, i: nat, dir: string, f: Visit -> R, n: int)
    requires i < |cs|
    requires |Take(MapSeq(f, LevelCandidates(cs[..i], dir)), n)| < n
    ensures Take(MapSeq(f, LevelCandidates(cs[..i + 1], dir)), n) ==
      Take(MapSeq(f, LevelCandidates(cs[..i], dir)), n) + LevelOwn(cs[i], dir, f)
  {
    var c := cs[i];
    var prefix := MapSeq(f, LevelCandidates(cs[..i], dir));
    var own := if c.File? && IsExcelFile(c.name) then [Visit(c, dir)] else [];
    LevelCandidatesStep(cs, i, dir);
    MapSeqConcat(f, LevelCandidates(cs[..i], dir), own);
    MapSeqSingleton(f, Visit(c, dir), c.File? && IsExcelFile(c.name));
    assert Take(prefix, n) == prefix;
    TakeStep(prefix, MapSeq(f, own), n);
  }

  lemma LevelLimitReached<R>(cs: seq<Entry>, i: nat, dir: string, f: Visit -> R, n: int)
    requires i <= |cs|
    requires n <= |Take(MapSeq(f, LevelCandidates(cs[..i], dir)), n)|
    ensures Take(MapSeq(f, LevelCandidates(cs, dir)), n) == Take(MapSeq(f, LevelCandidates(cs[..i], dir)), n)
  {
    var p, q := LevelCandidates(cs[..i], dir), LevelCandidates(cs[i..], dir);
    LevelCandidatesSplit(cs, i, dir);
    MapSeqConcat(f, p, q);
    TakeFull(MapSeq(f, p), MapSeq(f, q), n);
  }

  /** FileService.getFolderFilesLimited: the lightweight records of the
      spreadsheet files in scope, cut to the first maxFiles (none when
      maxFiles is not positive). */
  method GetFolderFilesLimited(root: Entry, folder: seq<string>, includeSubfolders: bool, maxFiles: int)
    returns (r: Result<seq<LightRecord>, ServiceError>)
    ensures r.Failure? <==> TargetDir(root, folder).None?
    ensures r.Failure? ==> r.error == FolderNotFound(folder)
    ensures r.Success? ==>
      r.value == Take(MapSeq(LightRecordOf, CandidateScope(TargetDir(root, folder).value.children, PathString(folder), includeSubfolders)), maxFiles)
    ensures r.Success? ==> |r.value| <= if maxFiles < 0 then 0 else maxFiles
    ensures r.Success? ==>
      r.value <= MapSeq(LightRecordOf, CandidateScope(TargetDir(root, folder).value.children, PathString(folder), includeSubfolders))
    ensures r.Success? && maxFiles >= |CandidateScope(TargetDir(root, folder).value.children, PathString(folder), includeSubfolders)| ==>
      r.value == MapSeq(LightRecordOf, CandidateScope(TargetDir(root, folder).value.children, PathString(folder), includeSubfolders))
  {
    var target := TargetDir(root, folder);
    if target.None? {
      return Failure(FolderNotFound(folder));
    }
    var records: seq<LightRecord>;
    if includeSubfolders {
      records := CollectFilesLimited(target.value, PathString(folder), LightRecordOf, maxFiles, []);
    } else {
      records := CollectFilesInDirectoryLimited(target.value, PathString(folder), LightRecordOf, maxFiles, []);
    }
    LimitedIsPrefix(MapSeq(LightRecordOf, CandidateScope(target.value.children, PathString(folder), includeSubfolders)), maxFiles);
    return Success(records);
  }

  /** The limited listing holds at most maxFiles records, is a prefix of the
      full lightweight listing, and is all of it when the limit is not
      smaller than the number of spreadsheet files. */
  lemma LimitedIsPrefix(all: seq<LightRecord>, maxFiles: int)
    ensures |Take(all, maxFiles)| <= if maxFiles < 0 then 0 else maxFiles
    ensures Take(all, maxFiles) <= all
    ensures maxFiles >= |all| ==> Take(all, maxFiles) == all
  {
    TakeIsPrefix(all, maxFiles);
  }
}
