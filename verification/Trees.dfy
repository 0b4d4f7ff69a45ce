/** Directory trees, and what staging a list of files makes of an empty directory. */
module Trees {
  import opened Names
  import opened Strings
  import opened Wrappers

  /** A directory entry below one owned directory; special files other than symlinks never occur. */
  datatype Entry = Directory | File(bytes: Bytes) | Symlink

  type Path = seq<string>

  /** Every entry of a tree by its path from the root, the root itself being `[]`. */
  type Tree = map<Path, Entry>

  const EMPTY_DIRECTORY: Tree := map[[] := Directory]

  /** A validated name and its exact content. */
  datatype SiteFile = SiteFile(name: string, bytes: Bytes)

  function Parts(file: SiteFile): Path {
    Split(file.name, '/')
  }

  function Parent(p: Path): Path
    requires p != []
  {
    p[..|p| - 1]
  }

  /** The path `q` is `p` or leads to it. */
  predicate Leads(q: Path, p: Path) {
    q <= p
  }

  predicate IsDirectory(t: Tree, p: Path) {
    p in t && t[p].Directory?
  }

  predicate SegmentNames(p: Path) {
    forall name <- p :: name != "" && '/' !in name
  }

  /** The root is a directory and every other entry lies in a directory of the tree. */
  ghost predicate WellFormed(t: Tree) {
    && IsDirectory(t, [])
    && (forall p | p in t :: SegmentNames(p) && (p != [] ==> IsDirectory(t, Parent(p))))
  }

  // ---------- The filesystem calls of staging ----------

  /** A recursive `create_dir`: an existing directory is kept, an existing file is an error. */
  function MkdirAll(t: Tree, p: Path): Option<Tree> {
    if p in t then (if t[p].Directory? then Some(t) else None)
    else if p == [] then None
    else
      match MkdirAll(t, Parent(p))
      case None => None
      case Some(made) => Some(made[p := Directory])
  }

  /** `create_new` followed by a complete write: never replaces an existing entry. */
  function CreateNew(t: Tree, p: Path, bytes: Bytes): Option<Tree> {
    if p in t || p == [] || !IsDirectory(t, Parent(p)) then None else Some(t[p := File(bytes)])
  }

  /** One iteration of `Content::write`. */
  function WriteOne(t: Tree, file: SiteFile): Option<Tree> {
    var p := Parts(file);
    if |p| == 1 then CreateNew(t, p, file.bytes)
    else
      match MkdirAll(t, Parent(p))
      case None => None
      case Some(made) => CreateNew(made, p, file.bytes)
  }

  /** All iterations of `Content::write` on a fresh staging directory, without I/O faults. */
  function WriteAll(files: seq<SiteFile>): Option<Tree> {
    if files == [] then Some(EMPTY_DIRECTORY)
    else
      match WriteAll(files[..|files| - 1])
      case None => None
      case Some(t) => WriteOne(t, files[|files| - 1])
  }

  // ---------- What staging must produce ----------

  /** No name equals another or names a directory that another lies in. */
  ghost predicate PrefixFree(files: seq<SiteFile>) {
    forall i, j | 0 <= i < |files| && 0 <= j < |files| && i != j :: !Leads(Parts(files[i]), Parts(files[j]))
  }

  predicate ValidNames(files: seq<SiteFile>) {
    forall file <- files :: ValidNested(file.name)
  }

  ghost predicate Below(p: Path, files: seq<SiteFile>) {
    exists file <- files :: Leads(p, Parts(file))
  }

  /** The tree holds exactly the given files and the directories leading to them. */
  ghost predicate Represents(t: Tree, files: seq<SiteFile>) {
    && (forall p :: p in t <==> p == [] || Below(p, files))
    && (forall file <- files :: Parts(file) in t && t[Parts(file)] == File(file.bytes))
    && (forall p | p in t :: t[p].Directory? || exists file <- files :: p == Parts(file))
  }

  predicate IsFile(t: Tree, p: Path) {
    p in t && p != [] && t[p].File?
  }

  /** A regular file under its root-relative name. */
  function FileAt(t: Tree, p: Path): SiteFile
    requires IsFile(t, p)
  {
    SiteFile(Join(p, '/'), t[p].bytes)
  }

  function FilePaths(t: Tree): set<Path> {
    set p | p in t && IsFile(t, p)
  }

  predicate AllFiles(t: Tree, paths: set<Path>) {
    forall p <- paths :: IsFile(t, p)
  }

  function FilesAt(t: Tree, paths: set<Path>): (files: set<SiteFile>)
    requires AllFiles(t, paths)
    ensures forall p <- paths :: FileAt(t, p) in files
    ensures forall file <- files :: exists p <- paths :: file == FileAt(t, p)
  {
    set p | p in paths :: FileAt(t, p)
  }

  /** The regular files of a tree as root-relative names with their bytes. */
  function Flatten(t: Tree): set<SiteFile> {
    FilesAt(t, FilePaths(t))
  }

  function Elements(s: seq<SiteFile>): (elements: set<SiteFile>)
    ensures forall file :: file in elements <==> file in s
  {
    set file <- s
  }

  lemma SegmentsOfValidName(name: string)
    requires ValidNested(name)
    ensures SegmentNames(Split(name, '/'))
  {
    forall part <- Split(name, '/') ensures part != "" && '/' !in part {
      assert NormalSegment(part);
    }
  }

  lemma {:induction false} MkdirAllMakesPrefixes(t: Tree, p: Path)
    requires WellFormed(t) && SegmentNames(p)
    ensures MkdirAll(t, p).Some? <==> forall q | Leads(q, p) && q in t :: t[q].Directory?
    ensures MkdirAll(t, p).Some? ==>
      var made := MkdirAll(t, p).value;
      && WellFormed(made)
      && (forall q :: q in made <==> q in t || Leads(q, p))
      && (forall q | q in made :: made[q] == if q in t then t[q] else Directory)
  {
    if p in t {
      PrefixesOfDirectory(t, p);
    } else {
      var up := Parent(p);
      assert forall name <- up :: name in p;
      MkdirAllMakesPrefixes(t, up);
      LeadsToParent(p);
      if MkdirAll(t, p).Some? {
        var made := MkdirAll(t, up).value;
        assert IsDirectory(made, up);
        assert WellFormed(made[p := Directory]);
      } else {
        var q :| Leads(q, up) && q in t && !t[q].Directory?;
        assert Leads(q, p);
      }
    }
  }

  lemma LeadsToParent(p: Path)
    requires p != []
    ensures forall q :: Leads(q, p) <==> q == p || Leads(q, Parent(p))
    ensures !Leads(p, Parent(p))
  {
    forall q ensures Leads(q, p) <==> q == p || Leads(q, Parent(p)) {
      if Leads(q, p) && q != p { assert q == p[..|q|] && q == Parent(p)[..|q|]; }
    }
  }

  /** Whatever lies above an entry is a directory. */
  lemma {:induction false} PrefixesOfDirectory(t: Tree, p: Path)
    requires WellFormed(t) && p in t
    ensures forall q | Leads(q, p) && q != p :: IsDirectory(t, q)
    decreases |p|
  {
    if p != [] {
      PrefixesOfDirectory(t, Parent(p));
      LeadsToParent(p);
    }
  }

  /** A file is written exactly when it neither replaces an entry nor lies below a file. */
  lemma WriteOneAdds(t: Tree, file: SiteFile)
    requires WellFormed(t) && ValidNested(file.name)
    ensures WriteOne(t, file).Some?
       <==> Parts(file) !in t && forall q | Leads(q, Parts(file)) && q in t :: t[q].Directory?
    ensures WriteOne(t, file).Some? ==>
      var written := WriteOne(t, file).value;
      && WellFormed(written)
      && (forall q :: q in written <==> q in t || Leads(q, Parts(file)))
      && (forall q | q in written ::
            written[q] == if q == Parts(file) then File(file.bytes) else if q in t then t[q] else Directory)
  {
    var p := Parts(file);
    SegmentsOfValidName(file.name);
    var up := Parent(p);
    LeadsToParent(p);
    if |p| == 1 {
      assert up == [];
    } else {
      assert forall name <- up :: name in p;
      MkdirAllMakesPrefixes(t, up);
      if MkdirAll(t, up).Some? {
        var made := MkdirAll(t, up).value;
        assert IsDirectory(made, up);
      }
    }
    if WriteOne(t, file).Some? {
      var written := WriteOne(t, file).value;
      forall q | q in written ensures SegmentNames(q) && (q != [] ==> IsDirectory(written, Parent(q))) {
        if q == p { assert IsDirectory(written, up); }
      }
    }
  }

  /** A file that is refused for its own name leaves no new directory either. */
  lemma RefusedWriteMakesNothing(t: Tree, file: SiteFile)
    requires WellFormed(t) && ValidNested(file.name) && WriteOne(t, file).None?
    ensures var made := MkdirAll(t, Parent(Parts(file))); made.None? || made == Some(t)
  {
    var p := Parts(file);
    var up := Parent(p);
    SegmentsOfValidName(file.name);
    assert forall name <- up :: name in p;
    WriteOneAdds(t, file);
    LeadsToParent(p);
    MkdirAllMakesPrefixes(t, up);
    if MkdirAll(t, up).Some? {
      assert p in t;
      assert IsDirectory(t, up);
    }
  }

  lemma {:induction false} WriteAllCorrect(files: seq<SiteFile>)
    requires ValidNames(files)
    ensures WriteAll(files).Some? <==> PrefixFree(files)
    ensures WriteAll(files).Some? ==>
      WellFormed(WriteAll(files).value) && Represents(WriteAll(files).value, files)
  {
    if files != [] {
      var front, last := files[..|files| - 1], files[|files| - 1];
      assert files == front + [last];
      assert forall file <- front :: file in files;
      WriteAllCorrect(front);
      if WriteAll(front).Some? {
        var t := WriteAll(front).value;
        WriteOneAdds(t, last);
        WriteExtendsRepresentation(t, front, last);
      } else {
        var i, j :| 0 <= i < |front| && 0 <= j < |front| && i != j && Leads(Parts(front[i]), Parts(front[j]));
        assert files[i] == front[i] && files[j] == front[j];
      }
    }
  }

  /** One more file keeps the representation, and is refused exactly when it conflicts. */
  lemma WriteExtendsRepresentation(t: Tree, front: seq<SiteFile>, last: SiteFile)
    requires WellFormed(t) && Represents(t, front) && PrefixFree(front) && ValidNested(last.name)
    ensures WriteOne(t, last).Some? <==> PrefixFree(front + [last])
    ensures WriteOne(t, last).Some? ==> Represents(WriteOne(t, last).value, front + [last])
  {
    WriteOneAdds(t, last);
    var p, files := Parts(last), front + [last];
    assert files[|front|] == last;
    if WriteOne(t, last).Some? {
      forall i, j | 0 <= i < |files| && 0 <= j < |files| && i != j
        ensures !Leads(Parts(files[i]), Parts(files[j]))
      {
        if i < |front| && j == |front| {
          assert files[i] in front;
          assert Parts(files[i]) in t && t[Parts(files[i])].File?;
        } else if i == |front| {
          assert files[j] in front;
          assert !Below(p, front);
        }
      }
      RepresentsAfterWrite(t, front, last);
    } else if p in t {
      assert Below(p, front) || p == [];
      var file :| file in front && Leads(p, Parts(file));
      var j :| 0 <= j < |front| && front[j] == file;
      assert Leads(Parts(files[|front|]), Parts(files[j]));
    } else {
      var q :| Leads(q, p) && q in t && !t[q].Directory?;
      var file :| file in front && q == Parts(file);
      var i :| 0 <= i < |front| && front[i] == file;
      assert Leads(Parts(files[i]), Parts(files[|front|]));
    }
  }

  lemma RepresentsAfterWrite(t: Tree, front: seq<SiteFile>, last: SiteFile)
    requires WellFormed(t) && Represents(t, front) && ValidNested(last.name)
    requires WriteOne(t, last).Some?
    ensures Represents(WriteOne(t, last).value, front + [last])
  {
    WriteOneAdds(t, last);
    var written, files := WriteOne(t, last).value, front + [last];
    assert last in files;
    forall p ensures p in written <==> p == [] || Below(p, files) {
      if Below(p, files) {
        var file :| file in files && Leads(p, Parts(file));
        assert file == last || (file in front && Below(p, front));
      }
      if Below(p, front) {
        var file :| file in front && Leads(p, Parts(file));
        assert file in files;
      }
    }
    forall file <- files ensures Parts(file) in written && written[Parts(file)] == File(file.bytes) {
      if file in front { assert Parts(file) in t; }
    }
    forall p | p in written ensures written[p].Directory? || exists file <- files :: p == Parts(file) {
      if p != Parts(last) && p in t && !t[p].Directory? {
        var file :| file in front && p == Parts(file);
        assert file in files;
      }
    }
  }

  /** A represented tree flattens to exactly its files. */
  lemma RepresentsFlattens(t: Tree, files: seq<SiteFile>)
    requires Represents(t, files)
    ensures Flatten(t) == Elements(files)
  {
    forall file <- files ensures file in Flatten(t) {
      RepresentedFile(t, files, file);
      assert Parts(file) in FilePaths(t);
    }
    forall p <- FilePaths(t) ensures FileAt(t, p) in files {
      FoundFile(t, files, p);
    }
  }

  /** What a successful staging leaves. */
  lemma StagedFiles(files: seq<SiteFile>, t: Tree)
    requires ValidNames(files) && WriteAll(files) == Some(t)
    ensures WellFormed(t) && PrefixFree(files)
    ensures Flatten(t) == Elements(files)
  {
    WriteAllCorrect(files);
    RepresentsFlattens(t, files);
  }

  lemma FoundFile(t: Tree, files: seq<SiteFile>, p: Path)
    requires Represents(t, files) && IsFile(t, p)
    ensures FileAt(t, p) in files
  {
    var file :| file in files && p == Parts(file);
    RepresentedFile(t, files, file);
  }

  lemma RepresentedFile(t: Tree, files: seq<SiteFile>, file: SiteFile)
    requires Represents(t, files) && file in files
    ensures IsFile(t, Parts(file)) && FileAt(t, Parts(file)) == file
  {
    JoinSplit(file.name, '/');
  }

  /** The files alone determine the tree, whatever order they were written in. */
  lemma RepresentsDetermines(t: Tree, files: seq<SiteFile>, u: Tree, others: seq<SiteFile>)
    requires Represents(t, files) && Represents(u, others)
    requires forall file :: file in files <==> file in others
    ensures t == u
  {
    forall p ensures p in t <==> p in u {
      assert Below(p, files) <==> Below(p, others);
    }
    forall p | p in t ensures t[p] == u[p] {
      if file :| file in files && p == Parts(file) {
      } else {
        assert t[p].Directory? && u[p].Directory?;
      }
    }
  }

  /**
   * Staging succeeds exactly when no name is a path prefix of another; the staged tree then holds
   * exactly the input, and any other order of the same files stages the same tree.
   */
  lemma StagingIsExact(files: seq<SiteFile>, reordered: seq<SiteFile>)
    requires ValidNames(files) && multiset(files) == multiset(reordered)
    ensures WriteAll(files).Some? <==> PrefixFree(files)
    ensures WriteAll(files).Some? ==> Flatten(WriteAll(files).value) == Elements(files)
    ensures WriteAll(reordered) == WriteAll(files)
  {
    SameElements(files, reordered);
    WriteAllCorrect(files);
    WriteAllCorrect(reordered);
    if WriteAll(files).Some? { PrefixFreeReordered(files, reordered); }
    if WriteAll(reordered).Some? { PrefixFreeReordered(reordered, files); }
    if WriteAll(files).Some? {
      RepresentsFlattens(WriteAll(files).value, files);
      RepresentsDetermines(WriteAll(files).value, files, WriteAll(reordered).value, reordered);
    }
  }

  lemma SameElements<T>(a: seq<T>, b: seq<T>)
    requires multiset(a) == multiset(b)
    ensures forall x :: x in a <==> x in b
  {
    forall x ensures x in a <==> x in b {
      assert x in multiset(a) <==> x in multiset(b);
    }
  }

  lemma PrefixFreeReordered(files: seq<SiteFile>, reordered: seq<SiteFile>)
    requires multiset(files) == multiset(reordered) && PrefixFree(files)
    ensures PrefixFree(reordered)
  {
    forall i, j | 0 <= i < |reordered| && 0 <= j < |reordered| && i != j
      ensures !Leads(Parts(reordered[i]), Parts(reordered[j]))
    {
      var a, b := reordered[i], reordered[j];
      assert a in multiset(files) && b in multiset(files);
      var k :| 0 <= k < |files| && files[k] == a;
      if a == b {
        TwicePresent(reordered, i, j);
        assert multiset(files)[a] >= 2;
        PrefixFreeDistinct(files, a);
      } else {
        var l :| 0 <= l < |files| && files[l] == b;
        assert k != l;
      }
    }
  }

  lemma TwicePresent<T>(s: seq<T>, i: nat, j: nat)
    requires i < |s| && j < |s| && i != j && s[i] == s[j]
    ensures multiset(s)[s[i]] >= 2
  {
    var lo, hi := if i < j then i else j, if i < j then j else i;
    assert s == s[..lo] + [s[lo]] + s[lo + 1..hi] + [s[hi]] + s[hi + 1..];
    assert multiset(s) == multiset(s[..lo]) + multiset{s[lo]} + multiset(s[lo + 1..hi])
                          + multiset{s[hi]} + multiset(s[hi + 1..]);
  }

  lemma {:induction false} PrefixFreeDistinct(files: seq<SiteFile>, file: SiteFile)
    requires PrefixFree(files)
    ensures multiset(files)[file] <= 1
  {
    if files != [] {
      var front, last := files[..|files| - 1], files[|files| - 1];
      assert files == front + [last];
      forall i, j | 0 <= i < |front| && 0 <= j < |front| && i != j
        ensures !Leads(Parts(front[i]), Parts(front[j]))
      {
        assert files[i] == front[i] && files[j] == front[j];
      }
      PrefixFreeDistinct(front, file);
      if file in front {
        var i :| 0 <= i < |front| && front[i] == file;
        assert !Leads(Parts(files[i]), Parts(files[|front|]));
        assert file != last;
      }
    }
  }
}
