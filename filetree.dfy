/** The data directory as a value: a tree of files and directories, each
    directory's children in the order its DirectoryStream yields them (an
    order the file system does not specify). Resolving a folder below the
    root, and the pre-order walk every recursive operation performs, are
    defined here, together with what the walk reaches. */
module FileTree {
  import opened Wrappers
  import opened Strings
  import opened Seqs
  import opened Spreadsheet

  type byte = bv8

  /** A file carries its size, its modification time in milliseconds, the
      outcome of reading all its bytes (`None`: the read fails) and the
      outcome of parsing it as a workbook in the format its name implies
      (`None`: the parse fails). */
  datatype Entry =
    | File(name: string, size: nat, lastModified: int, data: Option<seq<byte>>, book: Option<Workbook>)
    | Dir(name: string, lastModified: int, children: seq<Entry>)

  /** A name as a POSIX directory stream yields it: non-empty, without '/'. */
  predicate ValidName(name: string)
  {
    name != "" && '/' !in name
  }

  /** No two entries of a directory share a name. */
  predicate UniqueNames(cs: seq<Entry>)
  {
    forall i, j :: 0 <= i < j < |cs| ==> cs[i].name != cs[j].name
  }

  /** A tree a file system can hold: valid names, unique within each directory. */
  ghost predicate WellFormed(e: Entry)
  {
    ValidName(e.name) && (e.Dir? ==> UniqueNames(e.children) && forall c :: c in e.children ==> WellFormed(c))
  }

  /** An entry met by a walk, with the root-relative path of the directory
      that holds it. */
  datatype Visit = Visit(entry: Entry, dirPath: string)
  {
    /** `basePath.relativize(path).toString()` for the entry. */
    function RelativePath(): string
    {
      Join(dirPath, entry.name)
    }
  }

  /** The first child with the given name. */
  function FindChild(cs: seq<Entry>, name: string): (r: Option<Entry>)
    ensures r.Some? ==> r.value in cs && r.value.name == name
    ensures r.None? ==> forall c :: c in cs ==> c.name != name
  {
    if cs == [] then None
    else if cs[0].name == name then Some(cs[0])
    else FindChild(cs[1..], name)
  }

  /** The entry a root-relative path, given by its segments, names; the empty
      path names the data root itself. */
  function Resolve(root: Entry, path: seq<string>): Option<Entry>
    decreases |path|
  {
    if path == [] then Some(root)
    else if root.File? then None
    else
      match FindChild(root.children, path[0])
      case None => None
      case Some(child) => Resolve(child, path[1..])
  }

  /** The target folder of a top-level operation: the resolved entry when it
      exists and is a directory (`Files.exists && Files.isDirectory`). */
  function TargetDir(root: Entry, path: seq<string>): Option<Entry>
  {
    match Resolve(root, path)
    case Some(e) => if e.Dir? then Some(e) else None
    case None => None
  }

  /** The relative path string of a folder given by its segments. */
  function PathString(path: seq<string>): string
  {
    if path == [] then "" else Join(PathString(path[..|path| - 1]), path[|path| - 1])
  }

  /** The pre-order walk over a directory's children: each child, then, for
      a directory, everything below it (collectAllFiles, searchInDirectory). */
  function WalkAll(cs: seq<Entry>, dir: string): seq<Visit>
    decreases cs, 0
  {
    if cs == [] then [] else WalkAll(cs[..|cs| - 1], dir) + WalkFrom(cs[|cs| - 1], dir)
  }

  function WalkFrom(c: Entry, dir: string): seq<Visit>
    decreases c, 1
  {
    [Visit(c, dir)] + (if c.Dir? then WalkAll(c.children, Join(dir, c.name)) else [])
  }

  /** One level: the children themselves. */
  function Level(cs: seq<Entry>, dir: string): (r: seq<Visit>)
    ensures |r| == |cs| && forall i :: 0 <= i < |cs| ==> r[i] == Visit(cs[i], dir)
  {
    if cs == [] then [] else Level(cs[..|cs| - 1], dir) + [Visit(cs[|cs| - 1], dir)]
  }

  /** The walk of a prefix of the children grows by the walk from the next child. */
  lemma WalkAllStep(cs: seq<Entry>, i: nat, dir: string)
    requires i < |cs|
    ensures WalkAll(cs[..i + 1], dir) == WalkAll(cs[..i], dir) + WalkFrom(cs[i], dir)
  {
    assert cs[..i + 1][..i] == cs[..i];
  }

  /** The level of a prefix of the children grows by the next child. */
  lemma LevelStep(cs: seq<Entry>, i: nat, dir: string)
    requires i < |cs|
    ensures Level(cs[..i + 1], dir) == Level(cs[..i], dir) + [Visit(cs[i], dir)]
  {
    assert cs[..i + 1][..i] == cs[..i];
  }

  /** The entries below a visited entry, in walk order. */
  function Below(c: Entry, dir: string): seq<Visit>
  {
    if c.Dir? then WalkAll(c.children, Join(dir, c.name)) else []
  }

  /** Filtering the walk from one entry: the entry itself, then what lies below it. */
  lemma FilterWalkFrom(c: Entry, dir: string, p: Visit -> bool)
    ensures Filter(WalkFrom(c, dir), p) == (if p(Visit(c, dir)) then [Visit(c, dir)] else []) + Filter(Below(c, dir), p)
  {
    assert WalkFrom(c, dir) == [Visit(c, dir)] + Below(c, dir);
    FilterConcat([Visit(c, dir)], Below(c, dir), p);
    FilterSnoc([], Visit(c, dir), p);
    assert [] + [Visit(c, dir)] == [Visit(c, dir)];
  }

  /** A spreadsheet file: what a walk hands to the per-file step. */
  predicate IsCandidate(v: Visit)
  {
    v.entry.File? && IsExcelFile(v.entry.name)
  }

  /** The recursive candidate walk of processAllExcelFiles and its siblings:
      descend into every directory, take every file whose name passes
      isExcelFile. */
  function Candidates(cs: seq<Entry>, dir: string): seq<Visit>
    decreases cs, 0
  {
    if cs == [] then [] else Candidates(cs[..|cs| - 1], dir) + CandidatesFrom(cs[|cs| - 1], dir)
  }

  function CandidatesFrom(c: Entry, dir: string): seq<Visit>
    decreases c, 1
  {
    if c.Dir? then Candidates(c.children, Join(dir, c.name))
    else if IsExcelFile(c.name) then [Visit(c, dir)]
    else []
  }

  /** The single-level candidate walk: non-directory children that pass
      isExcelFile. */
  function LevelCandidates(cs: seq<Entry>, dir: string): seq<Visit>
  {
    if cs == [] then [] else LevelCandidates(cs[..|cs| - 1], dir) + LevelCandidate(cs[|cs| - 1], dir)
  }

  /** What the single-level walk takes from one child: the child itself when
      it is a spreadsheet file. */
  function LevelCandidate(c: Entry, dir: string): seq<Visit>
  {
    if c.File? && IsExcelFile(c.name) then [Visit(c, dir)] else []
  }

  /** `v` is met at some depth below a directory with children `cs`: it is a
      child, or it is met below a child that is a directory. */
  ghost predicate Reaches(cs: seq<Entry>, dir: string, v: Visit)
    decreases cs, 0
  {
    exists i :: 0 <= i < |cs| && ReachesFrom(cs[i], dir, v)
  }

  ghost predicate ReachesFrom(c: Entry, dir: string, v: Visit)
    decreases c, 1
  {
    v == Visit(c, dir) || (c.Dir? && Reaches(c.children, Join(dir, c.name), v))
  }

  lemma ReachesSplit(cs: seq<Entry>, dir: string, v: Visit)
    requires cs != []
    ensures Reaches(cs, dir, v) <==> Reaches(cs[..|cs| - 1], dir, v) || ReachesFrom(cs[|cs| - 1], dir, v)
  {
    var init := cs[..|cs| - 1];
    if Reaches(cs, dir, v) {
      var i :| 0 <= i < |cs| && ReachesFrom(cs[i], dir, v);
      if i < |cs| - 1 {
        assert init[i] == cs[i];
      }
    }
    if Reaches(init, dir, v) {
      var i :| 0 <= i < |init| && ReachesFrom(init[i], dir, v);
      assert cs[i] == init[i];
    }
  }

  /** The walk meets exactly the entries at every depth below the folder. */
  lemma {:induction false} WalkAllReaches(cs: seq<Entry>, dir: string, v: Visit)
    ensures v in WalkAll(cs, dir) <==> Reaches(cs, dir, v)
    decreases cs, 0
  {
    if cs != [] {
      WalkAllReaches(cs[..|cs| - 1], dir, v);
      WalkFromReaches(cs[|cs| - 1], dir, v);
      ReachesSplit(cs, dir, v);
    }
  }

  lemma {:induction false} WalkFromReaches(c: Entry, dir: string, v: Visit)
    ensures v in WalkFrom(c, dir) <==> ReachesFrom(c, dir, v)
    decreases c, 1
  {
    if c.Dir? {
      WalkAllReaches(c.children, Join(dir, c.name), v);
    }
  }

  /** The candidate walk is the pre-order walk keeping spreadsheet files only:
      walk order is kept and no directory is ever handed on. */
  lemma {:induction false} CandidatesFilterWalk(cs: seq<Entry>, dir: string)
    ensures Candidates(cs, dir) == Filter(WalkAll(cs, dir), IsCandidate)
    decreases cs, 0
  {
    if cs != [] {
      var init, c := cs[..|cs| - 1], cs[|cs| - 1];
      CandidatesFilterWalk(init, dir);
      CandidatesFromFilterWalk(c, dir);
      FilterConcat(WalkAll(init, dir), WalkFrom(c, dir), IsCandidate);
    }
  }

  lemma {:induction false} CandidatesFromFilterWalk(c: Entry, dir: string)
    ensures CandidatesFrom(c, dir) == Filter(WalkFrom(c, dir), IsCandidate)
    decreases c, 1
  {
    var below := if c.Dir? then WalkAll(c.children, Join(dir, c.name)) else [];
    FilterConcat([Visit(c, dir)], below, IsCandidate);
    assert Filter([Visit(c, dir)], IsCandidate) == if IsCandidate(Visit(c, dir)) then [Visit(c, dir)] else [] by {
      assert [Visit(c, dir)][..0] == [];
    }
    if c.Dir? {
      CandidatesFilterWalk(c.children, Join(dir, c.name));
    }
  }

  /** The single-level candidate walk is the level keeping spreadsheet files. */
  lemma {:induction false} LevelCandidatesFilterLevel(cs: seq<Entry>, dir: string)
    ensures LevelCandidates(cs, dir) == Filter(Level(cs, dir), IsCandidate)
  {
    if cs != [] {
      LevelCandidatesFilterLevel(cs[..|cs| - 1], dir);
      assert Level(cs, dir)[..|cs| - 1] == Level(cs[..|cs| - 1], dir);
    }
  }

  /** A visit is a candidate of the recursive walk exactly when it is a
      spreadsheet file met at some depth. */
  lemma CandidateMembership(cs: seq<Entry>, dir: string, v: Visit)
    ensures v in Candidates(cs, dir) <==> Reaches(cs, dir, v) && IsCandidate(v)
  {
    CandidatesFilterWalk(cs, dir);
    FilterMembership(WalkAll(cs, dir), IsCandidate, v);
    WalkAllReaches(cs, dir, v);
  }

  /** The single-level walk's candidates are among the recursive walk's, so
      a non-recursive aggregation never sees a file the recursive one would
      not. */
  lemma LevelCandidatesAreCandidates(cs: seq<Entry>, dir: string, v: Visit)
    requires v in LevelCandidates(cs, dir)
    ensures v in Candidates(cs, dir)
    ensures v.dirPath == dir && v.entry in cs
  {
    LevelCandidatesFilterLevel(cs, dir);
    FilterMembership(Level(cs, dir), IsCandidate, v);
    var i :| 0 <= i < |cs| && Level(cs, dir)[i] == v;
    assert ReachesFrom(cs[i], dir, v);
    CandidateMembership(cs, dir, v);
  }

  /** The candidates of one more child are those of the prefix followed by the child's own. */
  lemma CandidatesStep(cs: seq<Entry>, i: nat, dir: string)
    requires i < |cs|
    ensures Candidates(cs[..i + 1], dir) == Candidates(cs[..i], dir) + CandidatesFrom(cs[i], dir)
  {
    assert cs[..i + 1][..i] == cs[..i];
  }

  /** The single-level candidates of one more child. */
  lemma LevelCandidatesStep(cs: seq<Entry>, i: nat, dir: string)
    requires i < |cs|
    ensures LevelCandidates(cs[..i + 1], dir) == LevelCandidates(cs[..i], dir) + LevelCandidate(cs[i], dir)
  {
    assert cs[..i + 1][..i] == cs[..i];
  }

  /** The candidates of the children with one more child appended. */
  lemma CandidatesSnoc(cs: seq<Entry>, c: Entry, dir: string)
    ensures Candidates(cs + [c], dir) == Candidates(cs, dir) + CandidatesFrom(c, dir)
  {
    assert (cs + [c])[..|cs|] == cs;
  }

  /** The candidate walk distributes over a split of the children. */
  lemma {:induction false} CandidatesConcat(a: seq<Entry>, b: seq<Entry>, dir: string)
    ensures Candidates(a + b, dir) == Candidates(a, dir) + Candidates(b, dir)
    decreases |b|
  {
    if b == [] {
      assert a + b == a;
    } else {
      var init, last := b[..|b| - 1], b[|b| - 1];
      assert a + b == (a + init) + [last] && b == init + [last];
      CandidatesConcat(a, init, dir);
      CandidatesSnoc(a + init, last, dir);
      CandidatesSnoc(init, last, dir);
    }
  }

  /** The single-level candidates of the children with one more child appended. */
  lemma LevelCandidatesSnoc(cs: seq<Entry>, c: Entry, dir: string)
    ensures LevelCandidates(cs + [c], dir) == LevelCandidates(cs, dir) + LevelCandidate(c, dir)
  {
    assert (cs + [c])[..|cs|] == cs;
  }

  /** The single-level candidate walk distributes over a split of the children. */
  lemma {:induction false} LevelCandidatesConcat(a: seq<Entry>, b: seq<Entry>, dir: string)
    ensures LevelCandidates(a + b, dir) == LevelCandidates(a, dir) + LevelCandidates(b, dir)
    decreases |b|
  {
    if b == [] {
      assert a + b == a;
    } else {
      var init, last := b[..|b| - 1], b[|b| - 1];
      assert a + b == (a + init) + [last] && b == init + [last];
      LevelCandidatesConcat(a, init, dir);
      LevelCandidatesSnoc(a + init, last, dir);
      LevelCandidatesSnoc(init, last, dir);
    }
  }

  /** In a well-formed tree every entry a walk meets has a valid name. */
  lemma {:induction false} WalkNamesValid(cs: seq<Entry>, dir: string, v: Visit)
    requires forall c :: c in cs ==> WellFormed(c)
    requires v in WalkAll(cs, dir)
    ensures ValidName(v.entry.name)
    decreases cs, 0
  {
    var init, c := cs[..|cs| - 1], cs[|cs| - 1];
    if v in WalkAll(init, dir) {
      WalkNamesValid(init, dir, v);
    } else {
      WalkFromNamesValid(c, dir, v);
    }
  }

  lemma {:induction false} WalkFromNamesValid(c: Entry, dir: string, v: Visit)
    requires WellFormed(c)
    requires v in WalkFrom(c, dir)
    ensures ValidName(v.entry.name)
    decreases c, 1
  {
    if v != Visit(c, dir) {
      WalkNamesValid(c.children, Join(dir, c.name), v);
    }
  }

  lemma CandidatesSplit(cs: seq<Entry>, i: nat, dir: string)
    requires i <= |cs|
    ensures Candidates(cs, dir) == Candidates(cs[..i], dir) + Candidates(cs[i..], dir)
  {
    assert cs == cs[..i] + cs[i..];
    CandidatesConcat(cs[..i], cs[i..], dir);
  }

  lemma LevelCandidatesSplit(cs: seq<Entry>, i: nat, dir: string)
    requires i <= |cs|
    ensures LevelCandidates(cs, dir) == LevelCandidates(cs[..i], dir) + LevelCandidates(cs[i..], dir)
  {
    assert cs == cs[..i] + cs[i..];
    LevelCandidatesConcat(cs[..i], cs[i..], dir);
  }

  /** In a directory whose names are unique, looking a child up by its own
      name finds that child. */
  lemma {:induction false} FindChildUnique(cs: seq<Entry>, i: nat)
    requires UniqueNames(cs) && i < |cs|
    ensures FindChild(cs, cs[i].name) == Some(cs[i])
    decreases |cs|
  {
    if i > 0 {
      assert cs[0].name != cs[i].name;
      assert cs[1..][i - 1] == cs[i];
      FindChildUnique(cs[1..], i - 1);
    }
  }

  lemma PathStringSnoc(pre: seq<string>, name: string)
    ensures PathString(pre + [name]) == Join(PathString(pre), name)
  {
    assert (pre + [name])[..|pre + [name]| - 1] == pre;
  }

  /** Whatever a path resolves to below a directory reached by `pre` is met
      by the walk of that directory, in the folder the path's prefix names. */
  lemma {:induction false} ResolvedIsReached(e: Entry, pre: seq<string>, path: seq<string>)
    requires e.Dir? && path != [] && Resolve(e, path).Some?
    ensures Resolve(e, path).value.name == path[|path| - 1]
    ensures Reaches(e.children, PathString(pre), Visit(Resolve(e, path).value, PathString(pre + path[..|path| - 1])))
    decreases |path|
  {
    var child := FindChild(e.children, path[0]).value;
    var i :| 0 <= i < |e.children| && e.children[i] == child;
    var rest := path[1..];
    if rest == [] {
      assert pre + path[..|path| - 1] == pre;
      assert ReachesFrom(e.children[i], PathString(pre), Visit(child, PathString(pre)));
    } else {
      var pre' := pre + [path[0]];
      ResolvedIsReached(child, pre', rest);
      PathStringSnoc(pre, path[0]);
      assert pre' + rest[..|rest| - 1] == pre + path[..|path| - 1];
      assert ReachesFrom(e.children[i], PathString(pre), Visit(Resolve(e, path).value, PathString(pre + path[..|path| - 1])));
    }
  }

  /** Every segment of a path is a valid name. */
  predicate ValidPath(segs: seq<string>)
  {
    forall k :: 0 <= k < |segs| ==> ValidName(segs[k])
  }

  lemma ValidPathCons(name: string, segs: seq<string>)
    requires ValidName(name) && ValidPath(segs)
    ensures ValidPath([name] + segs)
  {
    assert forall k :: 1 <= k < |[name] + segs| ==> ([name] + segs)[k] == segs[k - 1];
  }

  /** Resolving a path that starts at a child's own name continues from that child. */
  lemma ResolveThroughChild(d: Entry, i: nat, rest: seq<string>)
    requires d.Dir? && UniqueNames(d.children) && i < |d.children|
    ensures Resolve(d, [d.children[i].name] + rest) == Resolve(d.children[i], rest)
  {
    FindChildUnique(d.children, i);
    assert ([d.children[i].name] + rest)[1..] == rest;
  }

  /** A path found below a child extends, through the child's name, to a
      path found below its directory. */
  lemma ExtendThroughChild(d: Entry, i: nat, pre: seq<string>, sub: seq<string>, v: Visit)
    requires d.Dir? && UniqueNames(d.children) && i < |d.children| && ValidName(d.children[i].name)
    requires ValidPath(sub) && Resolve(d.children[i], sub) == Some(v.entry)
    requires PathString((pre + [d.children[i].name]) + sub) == v.RelativePath()
    ensures ValidPath([d.children[i].name] + sub)
    ensures PathString(pre + ([d.children[i].name] + sub)) == v.RelativePath()
    ensures Resolve(d, [d.children[i].name] + sub) == Some(v.entry)
  {
    ResolveThroughChild(d, i, sub);
    ValidPathCons(d.children[i].name, sub);
    assert pre + ([d.children[i].name] + sub) == (pre + [d.children[i].name]) + sub;
  }

  /** Conversely, every entry met below a directory of a well-formed tree is
      what some path of valid names resolves to, and that path names its
      relative path. */
  lemma {:induction false} ReachedIsResolved(d: Entry, pre: seq<string>, v: Visit) returns (segs: seq<string>)
    requires d.Dir? && WellFormed(d) && Reaches(d.children, PathString(pre), v)
    ensures segs != [] && ValidPath(segs)
    ensures PathString(pre + segs) == v.RelativePath()
    ensures Resolve(d, segs) == Some(v.entry)
    decreases d
  {
    var cs := d.children;
    var i :| 0 <= i < |cs| && ReachesFrom(cs[i], PathString(pre), v);
    var c := cs[i];
    assert c in cs;
    assert WellFormed(c);
    var pre' := pre + [c.name];
    PathStringSnoc(pre, c.name);
    if v == Visit(c, PathString(pre)) {
      segs := [c.name];
      ResolveThroughChild(d, i, []);
    } else {
      var sub := ReachedIsResolved(c, pre', v);
      segs := [c.name] + sub;
      ExtendThroughChild(d, i, pre, sub, v);
    }
  }

  /** Joining one folder with two names gives the same path only for the same name. */
  lemma JoinInjective(x: string, a: string, b: string)
    requires Join(x, a) == Join(x, b)
    ensures a == b
  {
    if x != "" {
      assert (x + "/" + a)[|x| + 1..] == a;
      assert (x + "/" + b)[|x| + 1..] == b;
    }
  }

  /** Distinct paths of valid names have distinct relative path strings. */
  lemma {:induction false} PathStringInjective(p: seq<string>, q: seq<string>)
    requires ValidPath(p) && ValidPath(q)
    requires PathString(p) == PathString(q)
    ensures p == q
    decreases |p|
  {
    if p != [] && q != [] {
      var p', a := ValidPathInit(p);
      var q', b := ValidPathInit(q);
      FolderPathOfJoin(PathString(p'), a);
      FolderPathOfJoin(PathString(q'), b);
      PathStringInjective(p', q');
      JoinInjective(PathString(p'), a, b);
    } else if p != [] {
      var _, a := ValidPathInit(p);
    } else if q != [] {
      var _, b := ValidPathInit(q);
    }
  }

  /** A non-empty valid path is a valid path followed by a valid name. */
  lemma ValidPathInit(p: seq<string>) returns (init: seq<string>, last: string)
    requires ValidPath(p) && p != []
    ensures p == init + [last] && init == p[..|p| - 1] && last == p[|p| - 1]
    ensures ValidPath(init) && ValidName(last)
    ensures PathString(p) == Join(PathString(init), last) && PathString(p) != ""
  {
    init, last := p[..|p| - 1], p[|p| - 1];
    assert forall k :: 0 <= k < |init| ==> init[k] == p[k];
  }

  /** The target folder of a path of valid names in a well-formed data
      directory: the empty path is the data directory itself; otherwise a
      folder is found exactly when the walk of the data directory meets a
      directory at that relative path, and any entry met there is the one
      the path resolves to. */
  lemma TargetDirExactly(root: Entry, path: seq<string>)
    requires root.Dir? && WellFormed(root) && ValidPath(path)
    ensures path == [] ==> TargetDir(root, path) == Some(root)
    ensures path != [] ==>
      (TargetDir(root, path).Some? <==>
        exists v :: Reaches(root.children, "", v) && v.entry.Dir? && v.RelativePath() == PathString(path))
    ensures path != [] ==> forall v :: Reaches(root.children, "", v) && v.RelativePath() == PathString(path) ==>
      Resolve(root, path) == Some(v.entry)
  {
    if path != [] {
      forall v | Reaches(root.children, "", v) && v.RelativePath() == PathString(path)
        ensures Resolve(root, path) == Some(v.entry)
      {
        var segs := ReachedIsResolved(root, [], v);
        assert [] + segs == segs;
        PathStringInjective(segs, path);
      }
      if TargetDir(root, path).Some? {
        ResolvedIsReached(root, [], path);
        PathStringSnoc(path[..|path| - 1], path[|path| - 1]);
        assert path[..|path| - 1] + [path[|path| - 1]] == path;
        assert [] + path[..|path| - 1] == path[..|path| - 1];
        var v := Visit(Resolve(root, path).value, PathString(path[..|path| - 1]));
        assert Reaches(root.children, "", v) && v.entry.Dir? && v.RelativePath() == PathString(path);
      }
    }
  }
}
