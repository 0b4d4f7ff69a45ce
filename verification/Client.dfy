/** The command-line client's walk over an artifact directory, and its agreement with the server. */
module Client {
  import opened Archives
  import opened Names
  import opened NewSites
  import opened Strings
  import opened Trees
  import opened Wrappers

  const MAX_BYTES := 50 * 1024 * 1024
  const MAX_FILES := 10_000

  datatype Refusal = UnsafeNode | NotHtml | TooLarge | NoEntry | Undecodable | BlankPage

  /** What is found at the path that is to be published. */
  datatype Artifact = Folder(tree: Tree) | Page(bytes: Bytes) | Link

  /** What is sent: the text of one page, or the files of a site. */
  datatype Payload = Html(text: string) | Zip(files: seq<SiteFile>)

  /**
   * `str.lower()` as far as it can produce ASCII, from an ASCII letter or from the Kelvin sign. The dotted
   * capital I becomes an `i` and a combining mark, which no verdict below depends on: no name, prefix or
   * suffix that is looked for has a mark after its `i`.
   */
  function Lower(name: string): (lower: string)
    ensures |lower| == |name|
  {
    seq(|name|, i requires 0 <= i < |name| => if name[i] == '\U{212A}' then 'k' else AsciiLower(name[i]))
  }

  predicate StartsWith(value: string, prefix: string) {
    prefix <= value
  }

  predicate EndsWith(value: string, suffix: string) {
    |suffix| <= |value| && value[|value| - |suffix|..] == suffix
  }

  /** The name clauses of `safe_path`. */
  predicate SafeName(name: string) {
    var lower := Lower(name);
    && !StartsWith(lower, ".") && !StartsWith(lower, "id_rsa") && !StartsWith(lower, "id_ed25519")
    && !StartsWith(lower, "secrets") && !StartsWith(lower, "credentials")
    && !EndsWith(lower, ".pem") && !EndsWith(lower, ".key")
    && lower != "node_modules" && lower != "__pycache__" && lower != RESERVED_SEGMENT
    && '\\' !in lower
  }

  /** `Path(name).suffix`: the last dot counts unless it starts or ends the name. */
  function Suffix(name: string): string {
    match RSplitOnce(name, '.')
    case None => ""
    case Some((stem, extension)) => if stem == "" || extension == "" then "" else "." + extension
  }

  predicate HtmlSuffix(name: string) {
    Lower(Suffix(name)) == ".html" || Lower(Suffix(name)) == ".htm"
  }

  predicate Alphanumeric(c: char) {
    'a' <= c <= 'z' || '0' <= c <= '9'
  }

  /** A full match of the client's pattern for slugs, and no reserved name. */
  predicate ClientSlug(value: string) {
    && 3 <= |value| && 1 <= |value| - 2 <= 62
    && Alphanumeric(value[0])
    && (forall c <- value[1..|value| - 1] :: Alphanumeric(c) || c == '-')
    && Alphanumeric(value[|value| - 1])
    && value !in RESERVED_SLUGS
  }

  /** Client and server accept the same slugs. */
  lemma SlugChecksAgree(value: string)
    ensures ClientSlug(value) <==> ValidSlug(value)
  {
    if |value| >= 3 {
      var middle, last := value[1..|value| - 1], |value| - 1;
      assert value[0] in value && value[last] in value;
      if ValidSlug(value) {
        assert SlugChar(value[0]) && SlugChar(value[last]);
        forall c <- middle ensures Alphanumeric(c) || c == '-' {
          var i :| 0 <= i < |middle| && middle[i] == c;
          assert value[i + 1] in value;
        }
      }
      if ClientSlug(value) {
        assert forall c <- middle :: Alphanumeric(c) || c == '-';
        assert Alphanumeric(value[0]) && Alphanumeric(value[last]);
        forall c <- value ensures SlugChar(c) {
          var i :| 0 <= i < |value| && value[i] == c;
          assert i == 0 || i == last || (middle[i - 1] == c && c in middle);
        }
      }
    }
  }

  /** POSIX entry names: neither empty, `.`, `..`, nor containing a slash or NUL. */
  ghost predicate PosixTree(t: Tree) {
    && WellFormed(t)
    && (forall p | p in t && p != [] :: p[|p| - 1] != "." && p[|p| - 1] != ".." && '\0' !in p[|p| - 1])
  }

  predicate SafeNode(t: Tree, rootName: string, p: Path)
    requires p in t
  {
    SafeName(if p == [] then rootName else p[|p| - 1]) && !t[p].Symlink?
  }

  predicate AllSafe(t: Tree, rootName: string, paths: set<Path>)
    requires paths <= t.Keys
  {
    forall p <- paths :: SafeNode(t, rootName, p)
  }

  /** The bytes of a set of files together. */
  ghost function SizeOf(t: Tree, paths: set<Path>): nat
    requires AllFiles(t, paths)
  {
    if paths == {} then 0
    else
      var p :| p in paths;
      |t[p].bytes| + SizeOf(t, paths - {p})
  }

  function TopLevelNames(t: Tree): set<string> {
    set p | p in t && IsFile(t, p) && |p| == 1 && HtmlSuffix(p[0]) :: p[0]
  }

  /** Some HTML file lies at the top, and unless one of them is the index there is no second. */
  ghost predicate EntryRule(t: Tree) {
    TopLevelNames(t) != {} && ([ENTRY_FILENAME] in FilePaths(t) || |TopLevelNames(t)| == 1)
  }

  /** Within the client's byte and file budgets. */
  ghost predicate Fits(t: Tree) {
    SizeOf(t, FilePaths(t)) <= MAX_BYTES && |FilePaths(t)| <= MAX_FILES
  }

  /** A directory on the absolute path above the artifact. */
  datatype Component = Component(name: string, symlink: bool)

  /** No component above the artifact may be a symlink or look like a place for credentials. */
  predicate AllowedComponent(component: Component) {
    var lower := Lower(component.name);
    !component.symlink && !StartsWith(lower, "secrets") && !StartsWith(lower, "credentials")
  }

  predicate AllowedParents(parents: seq<Component>) {
    forall component <- parents :: AllowedComponent(component)
  }

  /** A directory of safe entries, within the budgets and with an entry to serve. */
  ghost predicate AcceptableArtifact(t: Tree, rootName: string) {
    && AllSafe(t, rootName, t.Keys)
    && Fits(t)
    && EntryRule(t)
  }

  /** The characters that `str.strip` removes: four control characters more than the server trims. */
  predicate PythonBlank(text: string) {
    forall c <- text :: IsWhitespace(c) || 0x1C <= c as int <= 0x1F
  }

  /** The text that the bytes are the UTF-8 encoding of, if they are one. */
  ghost predicate Decodes(bytes: Bytes, text: Option<string>) {
    match text
    case Some(value) => Utf8(value) == bytes
    case None => forall value :: Utf8(value) != bytes
  }

  /** A safely named HTML file within the budget, with something to see in it. */
  predicate AcceptablePage(bytes: Bytes, rootName: string, text: Option<string>) {
    SafeName(rootName) && HtmlSuffix(rootName) && |bytes| <= MAX_BYTES && text.Some? && !PythonBlank(text.value)
  }

  /** Exactly what the client publishes, from exactly the places it allows. */
  ghost predicate ClientAccepts(artifact: Artifact, rootName: string, parents: seq<Component>, text: Option<string>) {
    && AllowedParents(parents)
    && match artifact
       case Folder(tree) => AcceptableArtifact(tree, rootName)
       case Page(bytes) => AcceptablePage(bytes, rootName, text)
       case Link => false
  }

  /** Every file of the artifact under its root-relative name, each exactly once. */
  ghost predicate Lists(t: Tree, files: seq<SiteFile>) {
    Elements(files) == Flatten(t) && DistinctNames(files)
  }

  /** What has been read so far, in the order of reading. */
  ghost predicate ReadSoFar(t: Tree, files: seq<SiteFile>, read: seq<Path>, visited: set<Path>) {
    && Once(read) && |files| == |read|
    && (forall p :: p in read <==> p in visited && IsFile(t, p))
    && (forall i | 0 <= i < |read| :: IsFile(t, read[i]) && files[i] == FileAt(t, read[i]))
  }

  /**
   * The state of a walk: every entry whose parent was visited is itself visited, on the stack, or in
   * the listing being pushed, and only once.
   */
  ghost predicate Frontier(t: Tree, pending: seq<Path>, listing: set<Path>, visited: set<Path>) {
    && Once(pending)
    && visited <= t.Keys
    && (forall p <- pending :: p in t && p !in visited && p !in listing)
    && (forall p | p in t ::
          (p in pending || p in visited || p in listing) <==> (p == [] || Parent(p) in visited))
  }

  /** The artifact has been read safely and within budget as far as it was visited. */
  ghost predicate Walking(t: Tree, rootName: string, pending: seq<Path>, files: seq<SiteFile>, total: nat,
                          read: seq<Path>, visited: set<Path>) {
    && Frontier(t, pending, {}, visited)
    && AllSafe(t, rootName, visited)
    && ReadSoFar(t, files, read, visited)
    && total == TotalSize(files) <= MAX_BYTES && |files| <= MAX_FILES
  }

  /** Walks the artifact with one stack of paths, in whatever order directories list their entries. */
  method Walk(t: Tree, rootName: string) returns (result: Result<seq<SiteFile>, Refusal>)
    requires PosixTree(t)
    ensures result.Ok? <==> AllSafe(t, rootName, t.Keys) && Fits(t)
    ensures result.Ok? ==> Lists(t, result.value)
  {
    var pending: seq<Path> := [[]];
    var files: seq<SiteFile> := [];
    var total: nat := 0;
    ghost var visited: set<Path> := {};
    ghost var read: seq<Path> := [];
    while pending != []
      invariant Walking(t, rootName, pending, files, total, read, visited)
      decreases t.Keys - visited
    {
      var last := |pending| - 1;
      var path := pending[last];
      if !SafeNode(t, rootName, path) { return Err(UnsafeNode); }
      FrontierPop(t, pending, visited);
      if t[path].Directory? {
        pending := PushAll(t, pending[..last], Children(t, path), visited + {path});
      } else {
        NoChildrenBelowFile(t, path);
        pending := pending[..last];
        var more := ReadFile(t, path, files, total, read, visited);
        if more.None? { return Err(TooLarge); }
        files, total := more.value.0, more.value.1;
        read := read + [path];
      }
      visited := visited + {path};
    }
    WalkEnds(t, rootName, files, total, read, visited);
    result := Ok(files);
  }

  lemma WalkEnds(t: Tree, rootName: string, files: seq<SiteFile>, total: nat, read: seq<Path>, visited: set<Path>)
    requires WellFormed(t) && Walking(t, rootName, [], files, total, read, visited)
    ensures AllSafe(t, rootName, t.Keys) && Fits(t) && Lists(t, files)
  {
    forall p | p in t ensures p in visited { EveryNodeVisited(t, visited, p); }
    assert visited == t.Keys;
    ReadEverything(t, files, read, visited);
  }

  /** Reads one file up to one byte past the remaining budget. */
  method ReadFile(t: Tree, path: Path, files: seq<SiteFile>, total: nat, ghost read: seq<Path>, ghost visited: set<Path>)
      returns (more: Option<(seq<SiteFile>, nat)>)
    requires WellFormed(t) && ReadSoFar(t, files, read, visited) && IsFile(t, path) && path !in visited
    requires total == TotalSize(files) <= MAX_BYTES && |files| <= MAX_FILES
    ensures more.None? ==> !Fits(t)
    ensures more.Some? ==>
      && ReadSoFar(t, more.value.0, read + [path], visited + {path})
      && more.value.1 == TotalSize(more.value.0) <= MAX_BYTES && |more.value.0| <= MAX_FILES
  {
    ReadOneMore(t, files, read, visited, path);
    var room := MAX_BYTES - total + 1;
    var data := if |t[path].bytes| <= room then t[path].bytes else t[path].bytes[..room];
    if total + |data| > MAX_BYTES || |files| >= MAX_FILES { return None; }
    assert SiteFile(Join(path, '/'), data) == FileAt(t, path);
    more := Some((files + [SiteFile(Join(path, '/'), data)], total + |data|));
  }

  /** Looks at every component above the artifact. */
  method CheckParents(parents: seq<Component>) returns (allowed: bool)
    ensures allowed <==> AllowedParents(parents)
  {
    for i := 0 to |parents|
      invariant forall component <- parents[..i] :: AllowedComponent(component)
    {
      if !AllowedComponent(parents[i]) { return false; }
    }
    allowed := true;
  }

  /** The files to publish, or the page, if its place, its content and its entries are all acceptable. */
  method Content(artifact: Artifact, rootName: string, parents: seq<Component>, text: Option<string>)
      returns (result: Result<Payload, Refusal>)
    requires artifact.Folder? ==> PosixTree(artifact.tree)
    requires artifact.Page? ==> Decodes(artifact.bytes, text)
    ensures result.Ok? <==> ClientAccepts(artifact, rootName, parents, text)
    ensures result.Ok? && artifact.Folder? ==> result.value.Zip? && Lists(artifact.tree, result.value.files)
    ensures result.Ok? && artifact.Page? ==> result.value.Html? && Utf8(result.value.text) == artifact.bytes
  {
    var allowed := CheckParents(parents);
    if !allowed || artifact.Link? { return Err(UnsafeNode); }
    match artifact
    case Folder(tree) =>
      var files := FolderContent(tree, rootName);
      result := if files.Ok? then Ok(Zip(files.value)) else Err(files.error);
    case Page(bytes) =>
      if !SafeName(rootName) { return Err(UnsafeNode); }
      if !HtmlSuffix(rootName) { return Err(NotHtml); }
      if |bytes| > MAX_BYTES { return Err(TooLarge); }
      if text.None? { return Err(Undecodable); }
      result := if PythonBlank(text.value) then Err(BlankPage) else Ok(Html(text.value));
  }

  /** The files of a directory, once the entry rule holds as well. */
  method FolderContent(t: Tree, rootName: string) returns (result: Result<seq<SiteFile>, Refusal>)
    requires PosixTree(t)
    ensures result.Ok? <==> AcceptableArtifact(t, rootName)
    ensures result.Ok? ==> Lists(t, result.value)
  {
    result := Walk(t, rootName);
    if result.Err? { return; }
    var files := result.value;
    var html := set file | file in files && IsFlat(file) && HtmlSuffix(file.name) :: file.name;
    EntryRuleListed(t, files);
    if html == {} || (!HasName(files, ENTRY_FILENAME) && |html| != 1) { return Err(NoEntry); }
  }

  /** `pending.extend(path.iterdir())`. */
  method PushAll(t: Tree, stack: seq<Path>, children: set<Path>, ghost visited: set<Path>)
      returns (pending: seq<Path>)
    requires Frontier(t, stack, children, visited) && children <= t.Keys && children !! visited
    ensures Frontier(t, pending, {}, visited)
  {
    pending := stack;
    var listing := children;
    while listing != {}
      invariant listing <= children
      invariant Frontier(t, pending, listing, visited)
    {
      var child :| child in listing;
      FrontierPush(t, pending, listing, visited, child);
      listing := listing - {child};
      pending := pending + [child];
    }
  }

  lemma ReadOneMore(t: Tree, files: seq<SiteFile>, read: seq<Path>, visited: set<Path>, p: Path)
    requires WellFormed(t) && ReadSoFar(t, files, read, visited) && IsFile(t, p) && p !in visited
    ensures ReadSoFar(t, files + [FileAt(t, p)], read + [p], visited + {p})
    ensures TotalSize(files + [FileAt(t, p)]) == TotalSize(files) + |t[p].bytes|
    ensures TotalSize(files) + |t[p].bytes| <= SizeOf(t, FilePaths(t)) && |files| + 1 <= |FilePaths(t)|
  {
    var more := files + [FileAt(t, p)];
    assert forall q :: q in read + [p] <==> q in read || q == p;
    assert more[..|files|] == files;
    ReadWithinArtifact(t, more, read + [p], visited + {p});
  }

  lemma ReadNames(t: Tree, files: seq<SiteFile>, read: seq<Path>, visited: set<Path>)
    requires WellFormed(t) && ReadSoFar(t, files, read, visited)
    ensures DistinctNames(files)
    ensures Elements(files) == FilesAt(t, set p | p in FilePaths(t) && p in visited)
  {
    var paths := set p | p in FilePaths(t) && p in visited;
    forall i, j | 0 <= i < j < |files| ensures files[i].name != files[j].name {
      SplitOfJoin(read[i], '/');
      SplitOfJoin(read[j], '/');
    }
    forall file <- files ensures file in FilesAt(t, paths) {
      var i :| 0 <= i < |files| && files[i] == file;
      assert read[i] in read;
      assert read[i] in paths;
    }
    forall p <- paths ensures FileAt(t, p) in files {
      assert p in read;
      var i :| 0 <= i < |read| && read[i] == p;
      assert files[i] in files;
    }
  }

  /** What has been read never weighs more than the whole artifact. */
  lemma ReadWithinArtifact(t: Tree, files: seq<SiteFile>, read: seq<Path>, visited: set<Path>)
    requires WellFormed(t) && ReadSoFar(t, files, read, visited)
    ensures TotalSize(files) <= SizeOf(t, FilePaths(t)) && |files| <= |FilePaths(t)|
  {
    var paths := set p | p in FilePaths(t) && p in visited;
    ReadNames(t, files, read, visited);
    ListingWeighs(t, files, paths);
    AllFilesWithin(t, paths);
  }

  lemma ReadEverything(t: Tree, files: seq<SiteFile>, read: seq<Path>, visited: set<Path>)
    requires WellFormed(t) && ReadSoFar(t, files, read, visited) && visited == t.Keys
    ensures Lists(t, files)
    ensures Fits(t) <==> TotalSize(files) <= MAX_BYTES && |files| <= MAX_FILES
  {
    ReadNames(t, files, read, visited);
    assert FilePaths(t) == set p | p in FilePaths(t) && p in visited;
    ListingWeighs(t, files, FilePaths(t));
  }

  lemma FrontierPop(t: Tree, pending: seq<Path>, visited: set<Path>)
    requires Frontier(t, pending, {}, visited) && pending != []
    ensures var last := |pending| - 1;
      Frontier(t, pending[..last], Children(t, pending[last]), visited + {pending[last]})
  {
    var last := |pending| - 1;
    var rest, path := pending[..last], pending[last];
    assert pending == rest + [path];
    assert forall p :: p in pending <==> p in rest || p == path;
    forall p <- rest ensures p != path {
      var i :| 0 <= i < |rest| && rest[i] == p;
      assert pending[i] != pending[last];
    }
    assert forall p | p in Children(t, path) :: p !in pending && p !in visited;
  }

  lemma FrontierPush(t: Tree, pending: seq<Path>, listing: set<Path>, visited: set<Path>, child: Path)
    requires Frontier(t, pending, listing, visited) && child in listing && child in t && child !in visited
    ensures Frontier(t, pending + [child], listing - {child}, visited)
  {
    assert forall p :: p in pending + [child] <==> p in pending || p == child;
  }

  lemma {:induction false} EveryNodeVisited(t: Tree, visited: set<Path>, p: Path)
    requires WellFormed(t) && p in t
    requires forall q | q in t :: q in visited <==> (q == [] || Parent(q) in visited)
    ensures p in visited
    decreases |p|
  {
    if p != [] { EveryNodeVisited(t, visited, Parent(p)); }
  }

  lemma NoChildrenBelowFile(t: Tree, p: Path)
    requires WellFormed(t) && p in t && !t[p].Directory?
    ensures p != [] && forall q | q in t && q != [] :: Parent(q) != p
  {}

  lemma {:induction false} SizeOfAdd(t: Tree, paths: set<Path>, p: Path)
    requires AllFiles(t, paths) && IsFile(t, p) && p !in paths
    ensures SizeOf(t, paths + {p}) == SizeOf(t, paths) + |t[p].bytes|
    decreases |paths|
  {
    var all := paths + {p};
    var q :| q in all && SizeOf(t, all) == |t[q].bytes| + SizeOf(t, all - {q});
    if q == p {
      assert all - {p} == paths;
    } else {
      assert all - {q} == (paths - {q}) + {p};
      assert paths == (paths - {q}) + {q};
      SizeOfAdd(t, paths - {q}, p);
      SizeOfAdd(t, paths - {q}, q);
    }
  }

  /** A part of the files is never larger than all of them. */
  lemma {:induction false} AllFilesWithin(t: Tree, part: set<Path>)
    requires part <= FilePaths(t)
    ensures SizeOf(t, part) <= SizeOf(t, FilePaths(t)) && |part| <= |FilePaths(t)|
    decreases FilePaths(t) - part
  {
    if part != FilePaths(t) {
      var p :| p in FilePaths(t) && p !in part;
      SizeOfAdd(t, part, p);
      AllFilesWithin(t, part + {p});
    } 
  }

  lemma JoinIsInjective(t: Tree, p: Path, q: Path)
    requires WellFormed(t) && IsFile(t, p) && IsFile(t, q) && Join(p, '/') == Join(q, '/')
    ensures p == q
  {
    SplitOfJoin(p, '/');
    SplitOfJoin(q, '/');
  }

  /** Without a slash a listed name is a top-level file. */
  lemma FlatFilePath(t: Tree, files: seq<SiteFile>, file: SiteFile)
    requires WellFormed(t) && Elements(files) == Flatten(t) && file in files && IsFlat(file)
    ensures [file.name] in FilePaths(t)
  {
    assert file in Flatten(t);
    var q :| q in FilePaths(t) && file == FileAt(t, q);
    SplitOfJoin(q, '/');
    SplitWithout(file.name, '/');
  }

  lemma TopLevelFileListed(t: Tree, files: seq<SiteFile>, name: string)
    requires WellFormed(t) && Elements(files) == Flatten(t) && [name] in FilePaths(t)
    ensures '/' !in name && HasName(files, name)
  {
    var p := [name];
    assert name in p;
    assert FileAt(t, p) in Flatten(t);
    assert FileAt(t, p) in files && FileAt(t, p).name == name;
  }

  lemma EntryRuleListed(t: Tree, files: seq<SiteFile>)
    requires WellFormed(t) && Lists(t, files)
    ensures var html := set file | file in files && IsFlat(file) && HtmlSuffix(file.name) :: file.name;
      EntryRule(t) <==> html != {} && (HasName(files, ENTRY_FILENAME) || |html| == 1)
  {
    var html := set file | file in files && IsFlat(file) && HtmlSuffix(file.name) :: file.name;
    forall name <- TopLevelNames(t) ensures name in html {
      var p :| p in t && IsFile(t, p) && |p| == 1 && HtmlSuffix(p[0]) && p[0] == name;
      assert p == [name];
      TopLevelFileListed(t, files, name);
    }
    forall name <- html ensures name in TopLevelNames(t) {
      var file :| file in files && IsFlat(file) && HtmlSuffix(file.name) && file.name == name;
      FlatFilePath(t, files, file);
      var p := [name];
      assert p in t && IsFile(t, p) && |p| == 1 && HtmlSuffix(p[0]);
    }
    assert html == TopLevelNames(t);
    IndexListed(t, files);
  }

  lemma IndexListed(t: Tree, files: seq<SiteFile>)
    requires WellFormed(t) && Elements(files) == Flatten(t)
    ensures HasName(files, ENTRY_FILENAME) <==> [ENTRY_FILENAME] in FilePaths(t)
  {
    var name: string := ENTRY_FILENAME;
    assert '/' !in name;
    TopLevelNameListed(t, files, name);
  }

  lemma TopLevelNameListed(t: Tree, files: seq<SiteFile>, name: string)
    requires WellFormed(t) && Elements(files) == Flatten(t) && '/' !in name
    ensures HasName(files, name) <==> [name] in FilePaths(t)
  {
    if HasName(files, name) {
      var file :| file in files && file.name == name;
      FlatFilePath(t, files, file);
    }
    if [name] in FilePaths(t) { TopLevelFileListed(t, files, name); }
  }

  // ---------- Agreement with the server ----------

  lemma SafeNameIsNormal(name: string)
    requires SafeName(name) && name != "" && name != "." && name != ".."
    ensures NormalSegment(name) && '\\' !in name
  {
    var lower := Lower(name);
    ReservedIsLower();
    forall i | 0 <= i < |name| ensures name[i] != '\\' {
      assert lower[i] in lower;
    }
  }

  lemma ReservedIsLower()
    ensures Lower(RESERVED_SEGMENT) == RESERVED_SEGMENT
  {}

  lemma HiddenStartsWithDot(name: string)
    requires name != "" && name[0] == '.'
    ensures StartsWith(Lower(name), ".")
  {
    assert Lower(name)[0] == '.';
  }

  lemma SafePathIsValid(t: Tree, rootName: string, p: Path)
    requires PosixTree(t) && IsFile(t, p) && AllSafe(t, rootName, t.Keys)
    ensures ValidNested(Join(p, '/'))
  {
    forall i | 0 <= i < |p| ensures NormalSegment(p[i]) && '\\' !in p[i] && '\0' !in p[i] {
      SafeSegment(t, rootName, p, i);
    }
    SplitOfJoin(p, '/');
    JoinCharacters(p);
    ComponentsClauseIsImplied(Join(p, '/'));
  }

  lemma SafeSegment(t: Tree, rootName: string, p: Path, i: nat)
    requires PosixTree(t) && IsFile(t, p) && AllSafe(t, rootName, t.Keys) && i < |p|
    ensures NormalSegment(p[i]) && '\\' !in p[i] && '\0' !in p[i]
  {
    PathIsPosix(t, p, i);
    NodeNameIsSafe(t, rootName, p[..i + 1]);
    SafeNameIsNormal(p[i]);
  }

  lemma PathIsPosix(t: Tree, p: Path, i: nat)
    requires PosixTree(t) && p in t && i < |p|
    ensures p[..i + 1] in t && p[i] != "" && p[i] != "." && p[i] != ".." && '\0' !in p[i]
  {
    PrefixesOfDirectory(t, p);
    var q := p[..i + 1];
    assert Leads(q, p);
    assert q in t && q[|q| - 1] == p[i] && p[i] in p;
  }

  lemma NodeNameIsSafe(t: Tree, rootName: string, p: Path)
    requires p in t && p != [] && AllSafe(t, rootName, t.Keys)
    ensures SafeName(p[|p| - 1])
  {
    assert SafeNode(t, rootName, p);
  }

  lemma {:induction false} JoinCharacters(parts: seq<string>)
    requires |parts| >= 1 && forall i | 0 <= i < |parts| :: parts[i] != "" && '\\' !in parts[i] && '\0' !in parts[i]
    ensures Join(parts, '/') != "" && '\\' !in Join(parts, '/') && '\0' !in Join(parts, '/')
  {
    if |parts| > 1 { JoinCharacters(parts[1..]); }
  }

  /** Nothing but the extension, in any case of letters. */
  predicate BareExtension(name: string) {
    AsciiLowerAll(name) == ".html" || AsciiLowerAll(name) == ".htm"
  }

  /**
   * The client's suffix test and the server's extension test agree on every name but one that is nothing
   * but the extension, which only the server takes for HTML; the client refuses such a name as hidden.
   */
  lemma HtmlTestsAgree(name: string)
    ensures IsHtml(name) <==> HtmlSuffix(name) || BareExtension(name)
    ensures BareExtension(name) ==> !HtmlSuffix(name) && !SafeName(name)
  {
    match RSplitOnce(name, '.')
    case None => NoDotNoHtml(name);
    case Some((stem, extension)) =>
      assert name == stem + "." + extension;
      BareExtensionHasNoStem(name, stem, extension);
      if stem == "" { HiddenStartsWithDot(name); }
      KelvinIsNotHtml(extension);
      assert Lower("." + extension) == "." + Lower(extension);
      assert Lower("." + extension)[1..] == Lower(extension);
      assert ".html"[1..] == "html" && ".htm"[1..] == "htm";
      assert "." + "html" == ".html" && "." + "htm" == ".htm";
  }

  lemma NoDotNoHtml(name: string)
    requires '.' !in name
    ensures !BareExtension(name)
  {
    if name != "" { assert AsciiLowerAll(name)[0] == AsciiLower(name[0]) != '.'; }
    assert ".html"[0] == '.' && ".htm"[0] == '.';
  }

  lemma BareExtensionHasNoStem(name: string, stem: string, extension: string)
    requires name == stem + "." + extension && '.' !in extension
    ensures BareExtension(name) <==> stem == "" && (AsciiLowerAll(extension) == "html" || AsciiLowerAll(extension) == "htm")
  {
    assert AsciiLowerAll(name) == AsciiLowerAll(stem) + "." + AsciiLowerAll(extension);
    if stem == "" {
      assert AsciiLowerAll(name)[1..] == AsciiLowerAll(extension);
      assert ".html"[1..] == "html" && ".htm"[1..] == "htm";
      assert "." + "html" == ".html" && "." + "htm" == ".htm";
    } else {
      assert AsciiLowerAll(name)[|stem|] == '.' && 0 < |stem|;
      assert forall i | 0 < i < 5 :: ".html"[i] != '.';
      assert forall i | 0 < i < 4 :: ".htm"[i] != '.';
    }
  }

  lemma KelvinIsNotHtml(extension: string)
    ensures Lower(extension) == "html" <==> AsciiLowerAll(extension) == "html"
    ensures Lower(extension) == "htm" <==> AsciiLowerAll(extension) == "htm"
  {
    var a, b := Lower(extension), AsciiLowerAll(extension);
    if i :| 0 <= i < |extension| && extension[i] == '\U{212A}' {
      assert a[i] == 'k' && b[i] == '\U{212A}';
    } else {
      assert a == b;
    }
  }

  lemma WithoutOne(t: Tree, front: seq<SiteFile>, last: SiteFile, paths: set<Path>, p: Path)
    requires WellFormed(t) && AllFiles(t, paths) && Elements(front + [last]) == FilesAt(t, paths)
    requires !HasName(front, last.name) && p in paths && FileAt(t, p) == last
    ensures Elements(front) == FilesAt(t, paths - {p})
  {
    forall file <- front ensures file in FilesAt(t, paths - {p}) {
      assert file in Elements(front + [last]);
      var q :| q in paths && file == FileAt(t, q);
      assert q in paths - {p};
    }
    forall q <- paths - {p} ensures FileAt(t, q) in front {
      assert FileAt(t, q) in front + [last];
      if FileAt(t, q) == last {
        JoinIsInjective(t, p, q);
        assert false;
      }
    }
  }

  lemma SomethingListed(t: Tree, paths: set<Path>)
    requires AllFiles(t, paths) && paths != {}
    ensures FilesAt(t, paths) != {}
  {
    var p :| p in paths;
    assert FileAt(t, p) in FilesAt(t, paths);
  }

  /** A listing of the files weighs what the files weigh. */
  lemma {:induction false} ListingWeighs(t: Tree, packed: seq<SiteFile>, paths: set<Path>)
    requires WellFormed(t) && paths <= FilePaths(t) && DistinctNames(packed)
    requires Elements(packed) == FilesAt(t, paths)
    ensures TotalSize(packed) == SizeOf(t, paths) && |packed| == |paths|
    decreases |packed|
  {
    if packed == [] {
      if paths != {} {
        SomethingListed(t, paths);
        assert false;
      }
    } else {
      var front := packed[..|packed| - 1];
      var p := LastListed(t, packed, paths);
      ListingWeighs(t, front, paths - {p});
      SizeOfAdd(t, paths - {p}, p);
      assert (paths - {p}) + {p} == paths;
    }
  }

  /** The file that a listing ends with, and what the rest lists. */
  lemma LastListed(t: Tree, packed: seq<SiteFile>, paths: set<Path>) returns (p: Path)
    requires WellFormed(t) && paths <= FilePaths(t) && DistinctNames(packed) && packed != []
    requires Elements(packed) == FilesAt(t, paths)
    ensures p in paths && packed[|packed| - 1] == FileAt(t, p)
    ensures DistinctNames(packed[..|packed| - 1])
    ensures Elements(packed[..|packed| - 1]) == FilesAt(t, paths - {p})
  {
    var front, last := packed[..|packed| - 1], packed[|packed| - 1];
    assert packed == front + [last];
    assert last in packed && last in Elements(packed);
    p :| p in paths && FileAt(t, p) == last;
    DistinctNamesAppend(front, last);
    WithoutOne(t, front, last, paths, p);
  }

  /** The archive that the client sends, submitted with automatic entry selection. */
  function Submission(entries: seq<ZipEntry>, cap: nat): NewSiteBuilder {
    NewSiteBuilder(None, None, Some(Upload(Some(entries), cap)), None, "", None, "never")
  }

  /**
   * Every directory that the client accepts is accepted by a server with at least the client's
   * limits, with the same files whatever order the archive lists them in.
   */
  lemma ServerAcceptsClientArtifacts(t: Tree, rootName: string, entries: seq<ZipEntry>, cap: nat)
    requires PosixTree(t) && AcceptableArtifact(t, rootName) && Packs(t, entries)
    requires MAX_BYTES <= cap <= USIZE_MAX
    ensures var built := Built(Submission(entries, cap));
      && built.Ok?
      && multiset(built.value.files) == multiset(Contents(entries))
      && Elements(built.value.files) == Flatten(t)
  {
    ArtifactFiles(t, rootName, entries);
    ArtifactIsExtracted(t, rootName, entries, cap);
    SubmissionIsBuilt(entries, cap);
  }

  /** Every page that the client accepts is accepted by the server, as the index of a site with its bytes. */
  lemma ServerAcceptsClientPages(bytes: Bytes, rootName: string, text: string)
    requires Decodes(bytes, Some(text)) && AcceptablePage(bytes, rootName, Some(text))
    ensures var built := Built(PageSubmission(text));
      built.Ok? && built.value.files == [SiteFile(ENTRY_FILENAME, bytes)] && built.value.entry == ENTRY_FILENAME
  {
    var files := [SiteFile(ENTRY_FILENAME, bytes)];
    assert !Blank(text);
    assert ChosenFiles(PageSubmission(text)) == Ok((files, false));
    IndexIsAcceptable(files);
    BlankTitleIsValid();
    BuildIsExact(PageSubmission(text));
  }

  function PageSubmission(text: string): NewSiteBuilder {
    NewSiteBuilder(Some(text), None, None, None, "", None, "never")
  }

  lemma IndexIsAcceptable(files: seq<SiteFile>)
    requires |files| == 1 && files[0].name == ENTRY_FILENAME && |files[0].bytes| <= MAX_BYTES
    ensures AcceptableFiles(files, false, None) && SelectEntry(files, None) == Ok(ENTRY_FILENAME)
  {
    IndexIsValid();
    OneFileWeighs(files);
    assert files[0] in files && HasName(files, ENTRY_FILENAME);
  }

  lemma OneFileWeighs(files: seq<SiteFile>)
    requires |files| == 1
    ensures TotalSize(files) == |files[0].bytes|
  {
    assert files[..|files| - 1] == [];
    assert Sum(files, ByteLength) == Sum([], ByteLength) + ByteLength(files[0]);
  }

  lemma IndexIsValid()
    ensures ValidFilename(ENTRY_FILENAME)
  {
    var name: string := ENTRY_FILENAME;
    assert '/' !in name && '\\' !in name && '\0' !in name;
    SplitWithout(name, '/');
    assert NormalSegment(name);
    ComponentsClauseIsImplied(name);
  }

  lemma ArtifactIsExtracted(t: Tree, rootName: string, entries: seq<ZipEntry>, cap: nat)
    requires PosixTree(t) && AcceptableArtifact(t, rootName) && Packs(t, entries)
    requires MAX_BYTES <= cap <= USIZE_MAX
    ensures Extracted(Some(entries), cap) == Ok(Contents(entries))
    ensures Contents(entries) != [] && SelectEntry(Contents(entries), None).Ok?
  {
    ArtifactFiles(t, rootName, entries);
    ExtractionIsExact(Some(entries), cap);
    NoSharedDirectory(t, rootName, Contents(entries));
    StripsExactlySharedDirectory(Contents(entries));
  }

  lemma SubmissionIsBuilt(entries: seq<ZipEntry>, cap: nat)
    requires Extracted(Some(entries), cap) == Ok(Contents(entries))
    requires ValidNames(Contents(entries)) && DistinctNames(Contents(entries))
    requires 1 <= |Contents(entries)| <= MAX_SITE_FILES && TotalSize(Contents(entries)) <= I64_MAX
    requires SelectEntry(Contents(entries), None).Ok?
    ensures Built(Submission(entries, cap)).Ok? && Built(Submission(entries, cap)).value.files == Contents(entries)
  {
    SubmissionFiles(entries, cap);
    BuildIsExact(Submission(entries, cap));
  }

  lemma SubmissionFiles(entries: seq<ZipEntry>, cap: nat)
    requires Extracted(Some(entries), cap).Ok?
    ensures var submission := Submission(entries, cap);
      && ChosenFiles(submission) == Ok((Extracted(Some(entries), cap).value, true))
      && ValidTitle(submission.title)
      && ExpirySeconds(submission.expiresIn).Ok?
  {
    BlankTitleIsValid();
  }

  /** The archive's members are sound and within both budgets. */
  lemma ArtifactFiles(t: Tree, rootName: string, entries: seq<ZipEntry>)
    requires PosixTree(t) && AcceptableArtifact(t, rootName) && Packs(t, entries)
    ensures ValidNames(Contents(entries)) && Regular(entries) == Contents(entries)
    ensures forall entry <- entries :: SoundEntry(entry)
    ensures TotalSize(Contents(entries)) <= MAX_BYTES && |Contents(entries)| <= MAX_FILES
  {
    var packed := Contents(entries);
    ListingWeighs(t, packed, FilePaths(t));
    forall file <- packed ensures ValidNested(file.name) {
      assert file in Flatten(t);
      var p :| p in FilePaths(t) && file == FileAt(t, p);
      SafePathIsValid(t, rootName, p);
    }
    PackedEntriesAreComplete(entries);
    RegularOfFiles(entries);
  }

  /** The server finds an entry at the top level, so nothing is stripped. */
  lemma NoSharedDirectory(t: Tree, rootName: string, packed: seq<SiteFile>)
    requires PosixTree(t) && AcceptableArtifact(t, rootName)
    requires Elements(packed) == Flatten(t) && DistinctNames(packed) && ValidNames(packed)
    ensures SelectEntry(packed, None).Ok?
    ensures packed != [] && !exists directory :: AllBelow(packed, directory)
  {
    var name :| name in TopLevelNames(t);
    TopLevelNameIsFile(t, packed, name);
    IndexListed(t, packed);
    if !HasName(packed, ENTRY_FILENAME) {
      assert SafeNode(t, rootName, [name]);
      HtmlTestsAgree(name);
      forall file <- packed | IsHtml(file.name) && IsFlat(file) ensures file.name == name {
        OnlyHtml(t, rootName, packed, file, name);
      }
      SoleTopLevelHtml(packed, name);
    }
    var file :| file in packed && file.name == name;
    SplitWithout(name, '/');
  }

  lemma TopLevelNameIsFile(t: Tree, packed: seq<SiteFile>, name: string)
    requires WellFormed(t) && Elements(packed) == Flatten(t) && ValidNames(packed)
    requires name in TopLevelNames(t)
    ensures [name] in t && TopLevelFile(packed, name)
  {
    var p :| p in t && IsFile(t, p) && |p| == 1 && HtmlSuffix(p[0]) && p[0] == name;
    assert p == [name];
    TopLevelFileListed(t, packed, name);
  }

  lemma OnlyHtml(t: Tree, rootName: string, packed: seq<SiteFile>, file: SiteFile, name: string)
    requires PosixTree(t) && AcceptableArtifact(t, rootName)
    requires Elements(packed) == Flatten(t) && file in packed && IsHtml(file.name) && IsFlat(file)
    requires [ENTRY_FILENAME] !in FilePaths(t) && name in TopLevelNames(t)
    ensures file.name == name
  {
    FlatFilePath(t, packed, file);
    var p := [file.name];
    assert SafeNode(t, rootName, p);
    HtmlTestsAgree(file.name);
    assert p in t && IsFile(t, p) && |p| == 1 && HtmlSuffix(p[0]);
    assert file.name in TopLevelNames(t);
    OnlyElement(TopLevelNames(t), file.name, name);
  }

  lemma OnlyElement<T>(s: set<T>, a: T, b: T)
    requires |s| == 1 && a in s && b in s
    ensures a == b
  {
    assert |s - {a}| == 0;
    assert s - {a} == {};
  }
}
