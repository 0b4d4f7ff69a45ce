/** ZIP archives: what extraction accepts, what packing lists, and when one undoes the other. */
module Archives {
  import opened Names
  import opened Strings
  import opened Trees
  import opened Wrappers

  datatype EntryKind = DirectoryEntry | SymlinkEntry | FileEntry

  /**
   * One archive member. `opens` fails for an encrypted or broken header, `intact` for a decompression
   * or checksum failure; `bytes` is what decompression yields, whatever size was declared.
   */
  datatype ZipEntry = ZipEntry(name: string, kind: EntryKind, declared: nat, bytes: Bytes, opens: bool, intact: bool)

  const MAX_SITE_FILES := 10_000
  const U64_MAX := 0xFFFF_FFFF_FFFF_FFFF
  /** A 64-bit target. */
  const USIZE_MAX := U64_MAX

  // ---------- Extraction ----------

  datatype Scan = Scan(files: seq<SiteFile>, total: nat)

  /** `take(declared + 1)` with a saturating sum: one byte too many shows an oversized member. */
  function ReadContent(entry: ZipEntry): Bytes {
    var limit := if entry.declared >= U64_MAX then U64_MAX else entry.declared + 1;
    if |entry.bytes| <= limit then entry.bytes else entry.bytes[..limit]
  }

  /** One iteration of the loop in `extract`. */
  function Visit(scan: Scan, entry: ZipEntry, cap: nat): Result<Scan, InputError> {
    if !entry.opens then Err(ArchiveError)
    else if entry.kind.DirectoryEntry? then Ok(scan)
    else if entry.kind.SymlinkEntry? then Err(ArchiveError)
    else if !ValidSitePath(entry.name) then Err(FilenameError)
    else if entry.declared > USIZE_MAX then Err(SizeError)
    else if scan.total + entry.declared > USIZE_MAX || scan.total + entry.declared > cap then Err(SizeError)
    else
      var content := ReadContent(entry);
      if !entry.intact || |content| != entry.declared then Err(ArchiveError)
      else Ok(Scan(scan.files + [SiteFile(entry.name, content)], scan.total + entry.declared))
  }

  function ScanAll(entries: seq<ZipEntry>, cap: nat): Result<Scan, InputError> {
    if entries == [] then Ok(Scan([], 0))
    else
      match ScanAll(entries[..|entries| - 1], cap)
      case Err(error) => Err(error)
      case Ok(scan) => Visit(scan, entries[|entries| - 1], cap)
  }

  /** The directory name, with its slash, in front of the first file's name. */
  function SharedPrefix(files: seq<SiteFile>): Option<string> {
    if files == [] then None
    else
      match SplitOnce(files[0].name, '/')
      case None => None
      case Some((directory, _)) => Some(directory + "/")
  }

  predicate Shares(files: seq<SiteFile>, prefix: string) {
    forall file <- files :: |file.name| > |prefix| && prefix <= file.name
  }

  predicate Strips(files: seq<SiteFile>) {
    SharedPrefix(files).Some? && Shares(files, SharedPrefix(files).value)
  }

  function Stripped(files: seq<SiteFile>): (stripped: seq<SiteFile>)
    ensures |stripped| == |files|
  {
    if !Strips(files) then files
    else
      var cut := |SharedPrefix(files).value|;
      seq(|files|, i requires 0 <= i < |files| =>
        assert files[i] in files; files[i].(name := files[i].name[cut..]))
  }

  function Extracted(archive: Option<seq<ZipEntry>>, cap: nat): Result<seq<SiteFile>, InputError> {
    match archive
    case None => Err(ArchiveError)
    case Some(entries) =>
      if |entries| > MAX_SITE_FILES then Err(FileCountError)
      else
        match ScanAll(entries, cap)
        case Err(error) => Err(error)
        case Ok(scan) => Ok(Stripped(scan.files))
  }

  /** Drains the shared directory from every name in place. */
  method StripSharedDirectory(files: array<SiteFile>)
    modifies files
    ensures files[..] == Stripped(old(files[..]))
  {
    if files.Length == 0 { return; }
    var split := SplitOnce(files[0].name, '/');
    if split.None? { return; }
    var prefix := split.value.0 + "/";
    var shared := true;
    for i := 0 to files.Length
      invariant shared <==> forall j | 0 <= j < i :: |files[j].name| > |prefix| && prefix <= files[j].name
    {
      shared := shared && |files[i].name| > |prefix| && prefix <= files[i].name;
    }
    ghost var before := files[..];
    assert shared <==> Shares(before, prefix) by {
      assert forall j | 0 <= j < files.Length :: before[j] == files[j] && before[j] in before;
    }
    if shared {
      for i := 0 to files.Length
        invariant forall j | 0 <= j < i :: files[j] == before[j].(name := before[j].name[|prefix|..])
        invariant forall j | i <= j < files.Length :: files[j] == before[j]
      {
        assert before[i] in before;
        files[i] := files[i].(name := files[i].name[|prefix|..]);
      }
      assert files[..] == Stripped(before);
    }
  }

  /** The extraction loop: members one by one, stopping at the first that `Extracted` objects to. */
  method Extract(archive: Option<seq<ZipEntry>>, cap: nat) returns (result: Result<seq<SiteFile>, InputError>)
    ensures result == Extracted(archive, cap)
  {
    if archive.None? { return Err(ArchiveError); }
    var entries := archive.value;
    if |entries| > MAX_SITE_FILES { return Err(FileCountError); }
    var files: seq<SiteFile> := [];
    var declaredTotal: nat := 0;
    for index := 0 to |entries|
      invariant ScanAll(entries[..index], cap) == Ok(Scan(files, declaredTotal))
    {
      assert entries[..index + 1][..index] == entries[..index];
      ghost var visited := ScanAll(entries[..index + 1], cap);
      if visited.Err? { ScanErrorIsFinal(entries, index + 1, cap); }
      var entry := entries[index];
      if !entry.opens { return Err(ArchiveError); }
      if entry.kind.DirectoryEntry? { continue; }
      if entry.kind.SymlinkEntry? { return Err(ArchiveError); }
      if !ValidSitePath(entry.name) { return Err(FilenameError); }
      if entry.declared > USIZE_MAX { return Err(SizeError); }
      if declaredTotal + entry.declared > USIZE_MAX || declaredTotal + entry.declared > cap {
        return Err(SizeError);
      }
      declaredTotal := declaredTotal + entry.declared;
      var content := ReadContent(entry);
      if !entry.intact { return Err(ArchiveError); }
      if |content| != entry.declared { return Err(ArchiveError); }
      files := files + [SiteFile(entry.name, content)];
    }
    assert entries[..|entries|] == entries;
    var stripped := new SiteFile[|files|](i requires 0 <= i < |files| => files[i]);
    assert stripped[..] == files;
    StripSharedDirectory(stripped);
    result := Ok(stripped[..]);
  }

  lemma {:induction false} ScanErrorIsFinal(entries: seq<ZipEntry>, stop: nat, cap: nat)
    requires stop <= |entries| && ScanAll(entries[..stop], cap).Err?
    ensures ScanAll(entries, cap) == ScanAll(entries[..stop], cap)
    decreases |entries|
  {
    if stop == |entries| {
      assert entries[..stop] == entries;
    } else {
      var front := entries[..|entries| - 1];
      assert front[..stop] == entries[..stop];
      ScanErrorIsFinal(front, stop, cap);
    }
  }

  // ---------- Exactly which archives are accepted ----------

  function Sum(files: seq<SiteFile>, weight: SiteFile -> nat): nat {
    if files == [] then 0 else Sum(files[..|files| - 1], weight) + weight(files[|files| - 1])
  }

  function ByteLength(file: SiteFile): nat {
    |file.bytes|
  }

  function NameLength(file: SiteFile): nat {
    |file.name|
  }

  function TotalSize(files: seq<SiteFile>): nat {
    Sum(files, ByteLength)
  }

  /** The members that are not directories, in archive order. */
  function Regular(entries: seq<ZipEntry>): seq<SiteFile> {
    if entries == [] then []
    else
      var last := entries[|entries| - 1];
      Regular(entries[..|entries| - 1])
      + if last.kind.DirectoryEntry? then [] else [SiteFile(last.name, ReadContent(last))]
  }

  predicate SoundEntry(entry: ZipEntry) {
    && entry.opens
    && !entry.kind.SymlinkEntry?
    && (entry.kind.FileEntry? ==>
          ValidSitePath(entry.name) && entry.intact && entry.declared == |ReadContent(entry)|)
  }

  predicate AllSound(entries: seq<ZipEntry>) {
    forall entry <- entries :: SoundEntry(entry)
  }

  predicate Acceptable(archive: Option<seq<ZipEntry>>, cap: nat) {
    && archive.Some?
    && |archive.value| <= MAX_SITE_FILES
    && AllSound(archive.value)
    && TotalSize(Regular(archive.value)) <= cap
    && TotalSize(Regular(archive.value)) <= USIZE_MAX
  }

  lemma {:induction false} ScanAccepts(entries: seq<ZipEntry>, cap: nat)
    ensures ScanAll(entries, cap).Ok? <==>
            AllSound(entries) && TotalSize(Regular(entries)) <= cap && TotalSize(Regular(entries)) <= USIZE_MAX
    ensures ScanAll(entries, cap).Ok? ==>
            ScanAll(entries, cap).value == Scan(Regular(entries), TotalSize(Regular(entries)))
  {
    if entries != [] {
      ScanAccepts(entries[..|entries| - 1], cap);
      SoundUpToLast(entries);
      RegularUpToLast(entries);
    }
  }

  lemma SoundUpToLast(entries: seq<ZipEntry>)
    requires entries != []
    ensures AllSound(entries) <==> AllSound(entries[..|entries| - 1]) && SoundEntry(entries[|entries| - 1])
  {
    assert entries == entries[..|entries| - 1] + [entries[|entries| - 1]];
  }

  lemma RegularUpToLast(entries: seq<ZipEntry>)
    requires entries != []
    ensures var front, last := entries[..|entries| - 1], entries[|entries| - 1];
      if last.kind.DirectoryEntry? then Regular(entries) == Regular(front)
      else TotalSize(Regular(entries)) == TotalSize(Regular(front)) + |ReadContent(last)|
  {
    var before, after, last := Regular(entries[..|entries| - 1]), Regular(entries), entries[|entries| - 1];
    if last.kind.DirectoryEntry? {
      assert after == before;
    } else {
      assert after[..|after| - 1] == before;
    }
  }

  /** Extraction accepts exactly the sound archives within the cap and returns their files stripped. */
  lemma ExtractionIsExact(archive: Option<seq<ZipEntry>>, cap: nat)
    ensures Extracted(archive, cap).Ok? <==> Acceptable(archive, cap)
    ensures Acceptable(archive, cap) ==> Extracted(archive, cap) == Ok(Stripped(Regular(archive.value)))
  {
    if archive.Some? { ScanAccepts(archive.value, cap); }
  }

  // ---------- Stripping the shared directory ----------

  predicate DistinctNames(files: seq<SiteFile>) {
    forall i, j | 0 <= i < j < |files| :: files[i].name != files[j].name
  }

  /** Every name lies strictly below one common directory. */
  ghost predicate AllBelow(files: seq<SiteFile>, directory: string) {
    forall file <- files :: |Parts(file)| >= 2 && Parts(file)[0] == directory
  }

  /** For validated names stripping happens exactly when all files lie in one directory. */
  lemma StripsExactlySharedDirectory(files: seq<SiteFile>)
    requires ValidNames(files)
    ensures Strips(files) <==> files != [] && exists directory :: AllBelow(files, directory)
  {
    if files != [] {
      forall file <- files { FirstSegment(file.name); }
      if Strips(files) { StrippedLieBelow(files); }
      if directory :| AllBelow(files, directory) {
        assert files[0] in files;
        assert SharedPrefix(files) == Some(directory + "/");
      }
    }
  }

  lemma StrippedLieBelow(files: seq<SiteFile>)
    requires ValidNames(files) && files != [] && Strips(files)
    ensures AllBelow(files, SplitOnce(files[0].name, '/').value.0)
  {
    var directory := SplitOnce(files[0].name, '/').value.0;
    forall file <- files ensures |Parts(file)| >= 2 && Parts(file)[0] == directory {
      NameLiesBelow(file.name, directory);
    }
  }

  lemma NameLiesBelow(name: string, directory: string)
    requires ValidNested(name) && directory + "/" <= name && '/' !in directory
    ensures |Split(name, '/')| >= 2 && Split(name, '/')[0] == directory
  {
    FirstSegment(name);
    var rest := name[|directory| + 1..];
    assert name == directory + "/" + rest;
    SplitOnceUnique(directory, rest, '/');
  }

  /** The first segment of a nested name is what stands before its first slash. */
  lemma FirstSegment(name: string)
    requires ValidNested(name)
    ensures |Split(name, '/')| >= 2 <==> SplitOnce(name, '/').Some?
    ensures SplitOnce(name, '/').Some? ==>
      var (directory, rest) := SplitOnce(name, '/').value;
      Split(name, '/') == [directory] + Split(rest, '/') && name == directory + "/" + rest && rest != ""
  {
    match SplitOnce(name, '/')
    case None => SplitWithout(name, '/');
    case Some((directory, rest)) =>
      assert name == directory + ("/" + rest);
      SplitPrepend(directory, "/" + rest, '/');
      assert ("/" + rest)[1..] == rest && ("/" + rest)[0] == '/';
      assert Split("/" + rest, '/') == [""] + Split(rest, '/');
      assert directory + "" == directory;
      assert Split(name, '/')[1..] == Split(rest, '/');
      assert NormalSegment(Split(name, '/')[1]);
  }

  /** What stripping does to one name. */
  lemma StrippedName(files: seq<SiteFile>, i: nat)
    requires ValidNames(files) && Strips(files) && i < |files|
    ensures files[i].name == SharedPrefix(files).value + Stripped(files)[i].name
    ensures Stripped(files)[i].bytes == files[i].bytes
    ensures Parts(Stripped(files)[i]) == Parts(files[i])[1..]
    ensures ValidNested(Stripped(files)[i].name)
  {
    var file := files[i];
    assert file in files;
    var directory := SplitOnce(files[0].name, '/').value.0;
    var rest := Stripped(files)[i].name;
    assert file.name == directory + "/" + rest;
    SplitOnceUnique(directory, rest, '/');
    FirstSegment(file.name);
    assert Split(file.name, '/')[1..] == Split(rest, '/');
    forall part <- Split(rest, '/') ensures NormalSegment(part) {
      assert part in Split(file.name, '/');
    }
    assert forall c <- rest :: c in file.name;
    ComponentsClauseIsImplied(rest);
  }

  /** Stripping keeps order, bytes, validity and distinctness. */
  lemma StrippingKeepsFiles(files: seq<SiteFile>)
    requires ValidNames(files)
    ensures ValidNames(Stripped(files))
    ensures forall i | 0 <= i < |files| :: Stripped(files)[i].bytes == files[i].bytes
    ensures DistinctNames(files) <==> DistinctNames(Stripped(files))
    ensures TotalSize(Stripped(files)) == TotalSize(files)
  {
    var stripped := Stripped(files);
    if Strips(files) {
      forall i | 0 <= i < |files|
        ensures stripped[i].bytes == files[i].bytes && ValidNested(stripped[i].name)
        ensures files[i].name == SharedPrefix(files).value + stripped[i].name
      {
        StrippedName(files, i);
      }
      SameLengthsSameTotal(files, stripped);
    }
  }

  lemma {:induction false} SameLengthsSameTotal(a: seq<SiteFile>, b: seq<SiteFile>)
    requires |a| == |b| && forall i | 0 <= i < |a| :: a[i].bytes == b[i].bytes
    ensures TotalSize(a) == TotalSize(b)
  {
    if a != [] { SameLengthsSameTotal(a[..|a| - 1], b[..|b| - 1]); }
  }

  /** Whatever is extracted is bounded and can only name paths that staging would accept. */
  lemma ExtractionIsClosed(archive: Option<seq<ZipEntry>>, cap: nat)
    requires Extracted(archive, cap).Ok?
    ensures var files := Extracted(archive, cap).value;
      && |files| <= MAX_SITE_FILES
      && TotalSize(files) <= cap
      && ValidNames(files)
      && |files| == |Regular(archive.value)|
      && (forall i | 0 <= i < |files| :: files[i].bytes == Regular(archive.value)[i].bytes)
      && (DistinctNames(files) <==> DistinctNames(Regular(archive.value)))
  {
    ExtractionIsExact(archive, cap);
    RegularIsSound(archive.value);
    StrippingKeepsFiles(Regular(archive.value));
  }

  lemma {:induction false} RegularIsSound(entries: seq<ZipEntry>)
    requires forall entry <- entries :: SoundEntry(entry)
    ensures ValidNames(Regular(entries)) && |Regular(entries)| <= |entries|
  {
    if entries != [] {
      assert forall entry <- entries[..|entries| - 1] :: entry in entries;
      RegularIsSound(entries[..|entries| - 1]);
      assert SoundEntry(entries[|entries| - 1]);
    }
  }

  // ---------- Packing ----------

  function Packed(t: Tree, p: Path): ZipEntry
    requires IsFile(t, p)
  {
    ZipEntry(Join(p, '/'), FileEntry, |t[p].bytes|, t[p].bytes, true, true)
  }

  function Contents(entries: seq<ZipEntry>): seq<SiteFile> {
    seq(|entries|, i requires 0 <= i < |entries| => SiteFile(entries[i].name, entries[i].bytes))
  }

  /** Every regular file of the tree under its root-relative name, each exactly once. */
  ghost predicate Packs(t: Tree, entries: seq<ZipEntry>) {
    && (forall entry <- entries ::
          entry.kind.FileEntry? && entry.declared == |entry.bytes| && entry.opens && entry.intact)
    && Elements(Contents(entries)) == Flatten(t)
    && DistinctNames(Contents(entries))
  }

  /** `read_dir`: the entries directly below a directory, in no particular order. */
  function Children(t: Tree, directory: Path): set<Path> {
    set p | p in t && p != [] && Parent(p) == directory
  }

  predicate Once<T(==)>(s: seq<T>) {
    forall i, j | 0 <= i < j < |s| :: s[i] != s[j]
  }

  /** Packs the tree with an explicit stack of directories still to be read. */
  method Pack(t: Tree) returns (entries: seq<ZipEntry>)
    requires WellFormed(t)
    ensures Packs(t, entries)
  {
    entries := [];
    var pending: seq<Path> := [[]];
    ghost var packed: seq<Path> := [];
    ghost var visited: set<Path> := {};
    ghost var directories := set p | p in t && IsDirectory(t, p);
    while pending != []
      invariant Once(pending) && Once(packed)
      invariant visited <= directories
      invariant forall p <- pending :: p in directories && p !in visited
      invariant forall p | p in t && IsDirectory(t, p) ::
                  (p in pending || p in visited) <==> (p == [] || Parent(p) in visited)
      invariant forall p :: p in packed <==> IsFile(t, p) && Parent(p) in visited
      invariant |entries| == |packed|
      invariant forall i | 0 <= i < |packed| :: IsFile(t, packed[i]) && entries[i] == Packed(t, packed[i])
      decreases directories - visited
    {
      ghost var visitedBefore, pendingBefore := visited, pending;
      var last := |pending| - 1;
      var directory := pending[last];
      pending := pending[..last];
      visited := visited + {directory};
      var listing := Children(t, directory);
      while listing != {}
        invariant listing <= Children(t, directory)
        invariant Once(pending) && Once(packed)
        invariant forall p <- pending :: p in directories && p !in visited
        invariant forall p | p in t && IsDirectory(t, p) ::
                    (p in pending || p in visited || p in listing) <==> (p == [] || Parent(p) in visited)
        invariant forall p <- pending :: p !in listing
        invariant forall p :: p in packed <==> IsFile(t, p) && Parent(p) in visited && p !in listing
        invariant |entries| == |packed|
        invariant forall i | 0 <= i < |packed| :: IsFile(t, packed[i]) && entries[i] == Packed(t, packed[i])
      {
        var path :| path in listing;
        listing := listing - {path};
        if t[path].Directory? {
          pending := pending + [path];
        } else if t[path].File? {
          entries := entries + [ZipEntry(Join(path, '/'), FileEntry, |t[path].bytes|, t[path].bytes, true, true)];
          packed := packed + [path];
        }
      }
    }
    forall p | IsDirectory(t, p) ensures p in visited { EveryDirectoryVisited(t, visited, p); }
    PackedPathsPack(t, packed, entries);
  }

  lemma {:induction false} EveryDirectoryVisited(t: Tree, visited: set<Path>, p: Path)
    requires WellFormed(t) && IsDirectory(t, p)
    requires forall q | q in t && IsDirectory(t, q) :: q in visited <==> (q == [] || Parent(q) in visited)
    ensures p in visited
    decreases |p|
  {
    if p != [] { EveryDirectoryVisited(t, visited, Parent(p)); }
  }

  lemma PackedPathsPack(t: Tree, packed: seq<Path>, entries: seq<ZipEntry>)
    requires WellFormed(t) && Once(packed) && |entries| == |packed|
    requires forall p | IsFile(t, p) :: p in packed
    requires forall i | 0 <= i < |packed| :: IsFile(t, packed[i]) && entries[i] == Packed(t, packed[i])
    ensures Packs(t, entries)
  {
    var files := Contents(entries);
    assert forall i | 0 <= i < |packed| :: files[i] == FileAt(t, packed[i]);
    PackedNamesDiffer(t, packed, files);
    forall p <- FilePaths(t) ensures FileAt(t, p) in files {
      var i :| 0 <= i < |packed| && packed[i] == p;
      assert files[i] == FileAt(t, p);
    }
    forall file <- files ensures file in Flatten(t) {
      var i :| 0 <= i < |files| && files[i] == file;
      assert packed[i] in FilePaths(t);
    }
  }

  lemma PackedNamesDiffer(t: Tree, packed: seq<Path>, files: seq<SiteFile>)
    requires WellFormed(t) && Once(packed) && |files| == |packed|
    requires forall i | 0 <= i < |packed| :: IsFile(t, packed[i]) && files[i] == FileAt(t, packed[i])
    ensures forall i, j | 0 <= i < j < |files| :: files[i].name != files[j].name
  {
    forall i, j | 0 <= i < j < |files| ensures files[i].name != files[j].name {
      SplitOfJoin(packed[i], '/');
      SplitOfJoin(packed[j], '/');
    }
  }

  // ---------- The round trip ----------

  predicate IsFlat(file: SiteFile) {
    '/' !in file.name
  }

  /**
   * Packing a staged site and extracting the archive returns the same files, in any order the
   * directory reads come out, exactly when the files do not all lie in one shared directory.
   */
  lemma ArchiveRoundTrip(files: seq<SiteFile>, t: Tree, entries: seq<ZipEntry>, cap: nat)
    requires ValidNames(files) && WriteAll(files) == Some(t) && Packs(t, entries)
    requires 1 <= |files| <= MAX_SITE_FILES && TotalSize(files) <= cap <= USIZE_MAX
    ensures Extracted(Some(entries), cap).Ok?
    ensures multiset(Extracted(Some(entries), cap).value) == multiset(files)
       <==> !exists directory :: AllBelow(files, directory)
  {
    var packed := Contents(entries);
    PackedContents(files, t, entries);
    ExtractionIsExact(Some(entries), cap);
    assert |entries| == |packed|;
    StripsExactlySharedDirectory(packed);
    assert forall directory :: AllBelow(packed, directory) <==> AllBelow(files, directory);
    if Strips(packed) { StrippingShortens(packed); }
  }

  /** Packing lists the staged files in some order. */
  lemma PackedContents(files: seq<SiteFile>, t: Tree, entries: seq<ZipEntry>)
    requires ValidNames(files) && WriteAll(files) == Some(t) && Packs(t, entries)
    requires TotalSize(files) <= USIZE_MAX
    ensures multiset(Contents(entries)) == multiset(files) && |Contents(entries)| == |files|
    ensures forall file :: file in files <==> file in Contents(entries)
    ensures forall entry <- entries :: SoundEntry(entry)
    ensures Regular(entries) == Contents(entries)
    ensures TotalSize(Contents(entries)) == TotalSize(files)
  {
    var packed := Contents(entries);
    StagedFiles(files, t);
    PrefixFreeHasDistinctNames(files);
    SameMembers(files, packed, Flatten(t));
    DistinctNamesSameFiles(files, packed);
    assert |multiset(packed)| == |multiset(files)|;
    SumReordered(files, packed, ByteLength);
    PackedEntriesAreComplete(entries);
    RegularOfFiles(entries);
  }

  lemma PackedEntriesAreComplete(entries: seq<ZipEntry>)
    requires ValidNames(Contents(entries)) && TotalSize(Contents(entries)) <= USIZE_MAX
    requires forall entry <- entries ::
               entry.kind.FileEntry? && entry.declared == |entry.bytes| && entry.opens && entry.intact
    ensures forall entry <- entries :: CompleteFile(entry) && SoundEntry(entry)
  {
    var packed := Contents(entries);
    forall entry <- entries ensures CompleteFile(entry) && SoundEntry(entry) {
      var i :| 0 <= i < |entries| && entries[i] == entry;
      assert packed[i] in packed;
      MemberWithinTotal(packed, packed[i]);
    }
  }

  lemma SameMembers(a: seq<SiteFile>, b: seq<SiteFile>, s: set<SiteFile>)
    requires Elements(a) == s && Elements(b) == s
    ensures forall file :: file in a <==> file in b
  {
    forall file ensures file in a <==> file in b {
      assert file in a <==> file in s;
      assert file in b <==> file in s;
    }
  }

  /** A site whose entry is a top-level file survives the round trip unchanged. */
  lemma FlatEntryRoundTrip(files: seq<SiteFile>, entry: SiteFile, t: Tree, entries: seq<ZipEntry>, cap: nat)
    requires ValidNames(files) && WriteAll(files) == Some(t) && Packs(t, entries)
    requires |files| <= MAX_SITE_FILES && TotalSize(files) <= cap <= USIZE_MAX
    requires entry in files && IsFlat(entry)
    ensures Extracted(Some(entries), cap).Ok?
    ensures multiset(Extracted(Some(entries), cap).value) == multiset(files)
  {
    SplitWithout(entry.name, '/');
    ArchiveRoundTrip(files, t, entries, cap);
  }

  lemma PrefixFreeHasDistinctNames(files: seq<SiteFile>)
    requires PrefixFree(files)
    ensures DistinctNames(files)
  {
    forall i, j | 0 <= i < j < |files| ensures files[i].name != files[j].name {
      assert !Leads(Parts(files[i]), Parts(files[j]));
    }
  }

  lemma {:induction false} DistinctNamesSameFiles(a: seq<SiteFile>, b: seq<SiteFile>)
    requires DistinctNames(a) && DistinctNames(b)
    requires forall file :: file in a <==> file in b
    ensures multiset(a) == multiset(b)
  {
    forall file ensures multiset(a)[file] == multiset(b)[file] {
      DistinctNamesOnce(a, file);
      DistinctNamesOnce(b, file);
    }
  }

  lemma {:induction false} DistinctNamesOnce(files: seq<SiteFile>, file: SiteFile)
    requires DistinctNames(files)
    ensures multiset(files)[file] == if file in files then 1 else 0
  {
    if files != [] {
      var front, last := files[..|files| - 1], files[|files| - 1];
      assert files == front + [last];
      DistinctNamesOnce(front, file);
      if file in front {
        var i :| 0 <= i < |front| && front[i] == file;
        assert files[i].name != last.name;
      }
    }
  }

  /** A complete file member whose size a `u64` can hold. */
  predicate CompleteFile(entry: ZipEntry) {
    entry.kind.FileEntry? && entry.declared == |entry.bytes| <= U64_MAX
  }

  lemma {:induction false} RegularOfFiles(entries: seq<ZipEntry>)
    requires forall entry <- entries :: CompleteFile(entry)
    ensures Regular(entries) == Contents(entries)
  {
    if entries != [] {
      var last := entries[|entries| - 1];
      RegularOfFiles(entries[..|entries| - 1]);
      assert CompleteFile(last);
      assert ReadContent(last) == last.bytes;
      assert Contents(entries) == Contents(entries[..|entries| - 1]) + [SiteFile(last.name, last.bytes)];
    }
  }

  lemma {:induction false} MemberWithinTotal(files: seq<SiteFile>, file: SiteFile)
    requires file in files
    ensures |file.bytes| <= TotalSize(files)
  {
    var front, last := files[..|files| - 1], files[|files| - 1];
    assert files == front + [last];
    if file != last { MemberWithinTotal(front, file); }
  }

  lemma {:induction false} SumReordered(a: seq<SiteFile>, b: seq<SiteFile>, weight: SiteFile -> nat)
    requires multiset(a) == multiset(b)
    ensures Sum(a, weight) == Sum(b, weight)
  {
    if a == [] {
      assert |b| == |multiset(b)| == 0;
    } else {
      var front, last := a[..|a| - 1], a[|a| - 1];
      var left, right := AroundLast(a, b);
      SumReordered(front, left + right, weight);
      SumWithMiddle(left, last, right, weight);
    }
  }

  lemma SameFiles(a: seq<SiteFile>, b: seq<SiteFile>)
    requires multiset(a) == multiset(b)
    ensures Elements(a) == Elements(b) && |a| == |b| && TotalSize(a) == TotalSize(b)
  {
    SameElements(a, b);
    assert |multiset(a)| == |multiset(b)|;
    SumReordered(a, b, ByteLength);
  }

  /** What stands before and after the last element of one order in another. */
  lemma AroundLast(a: seq<SiteFile>, b: seq<SiteFile>) returns (left: seq<SiteFile>, right: seq<SiteFile>)
    requires a != [] && multiset(a) == multiset(b)
    ensures b == left + [a[|a| - 1]] + right && multiset(a[..|a| - 1]) == multiset(left + right)
  {
    var front, last := a[..|a| - 1], a[|a| - 1];
    assert a == front + [last];
    assert last in multiset(b);
    var i :| 0 <= i < |b| && b[i] == last;
    left, right := b[..i], b[i + 1..];
    assert b == left + [last] + right;
    assert multiset(front) == multiset(a) - multiset{last};
    assert multiset(left + right) == multiset(b) - multiset{last};
  }

  lemma SumWithMiddle(left: seq<SiteFile>, middle: SiteFile, right: seq<SiteFile>, weight: SiteFile -> nat)
    ensures Sum(left + [middle] + right, weight) == Sum(left + right, weight) + weight(middle)
  {
    SumConcat(left, right, weight);
    SumConcat(left + [middle], right, weight);
    SumAppend(left, middle, weight);
  }

  lemma SumAppend(files: seq<SiteFile>, last: SiteFile, weight: SiteFile -> nat)
    ensures Sum(files + [last], weight) == Sum(files, weight) + weight(last)
  {
    assert (files + [last])[..|files|] == files;
  }

  lemma {:induction false} SumConcat(a: seq<SiteFile>, b: seq<SiteFile>, weight: SiteFile -> nat)
    ensures Sum(a + b, weight) == Sum(a, weight) + Sum(b, weight)
  {
    if b == [] {
      assert a + b == a;
    } else {
      assert (a + b)[..|a + b| - 1] == a + b[..|b| - 1];
      SumConcat(a, b[..|b| - 1], weight);
    }
  }

  /** Stripping changes the files: the names together become shorter. */
  lemma StrippingShortens(files: seq<SiteFile>)
    requires Strips(files)
    ensures multiset(Stripped(files)) != multiset(files)
  {
    var stripped := Stripped(files);
    assert forall file <- files :: |file.name| > |SharedPrefix(files).value|;
    assert forall i | 0 <= i < |files| :: files[i] in files && |stripped[i].name| < |files[i].name|;
    ShorterNames(stripped, files);
    if multiset(stripped) == multiset(files) {
      SumReordered(stripped, files, NameLength);
      assert false;
    }
  }

  lemma {:induction false} ShorterNames(a: seq<SiteFile>, b: seq<SiteFile>)
    requires |a| == |b| && forall i | 0 <= i < |a| :: |a[i].name| < |b[i].name|
    ensures Sum(a, NameLength) + |a| <= Sum(b, NameLength)
  {
    if a != [] { ShorterNames(a[..|a| - 1], b[..|b| - 1]); }
  }
}
