/** Validated names: slugs, filenames, nested site paths, titles and expiry choices. */
module Names {
  import opened Strings
  import opened Wrappers

  datatype InputError =
    | HtmlError | TitleError | ModeError | ArchiveError | FileCountError | FilenameError
    | DuplicateFilenameError | SizeError | EntryError | SettingsEntryError | AccessError
    | PasswordError | ExpiryError

  // ---------- Site paths ----------

  const RESERVED_SEGMENT := "__unlock"

  /** What `Path::components` yields for a Unix path. */
  datatype Component = RootDir | CurDir | ParentDir | Normal(name: string)

  /** Components of the parts that follow the first one: empty and `.` parts vanish. */
  function Components(parts: seq<string>): seq<Component> {
    if parts == [] then []
    else
      (if parts[0] == "" || parts[0] == "." then []
       else if parts[0] == ".." then [ParentDir]
       else [Normal(parts[0])]) + Components(parts[1..])
  }

  /** A leading slash is a root and a leading `.` of a relative path is kept. */
  function PathComponents(path: string): seq<Component> {
    var parts := Split(path, '/');
    (if path == "" then []
     else if parts[0] == "" then [RootDir]
     else if parts[0] == "." then [CurDir]
     else []) + Components(parts)
  }

  predicate NormalSegment(part: string) {
    part != "" && part != "." && part != ".." && part != RESERVED_SEGMENT
  }

  /** `SitePath::parse`, clause for clause. */
  predicate ValidSitePath(path: string) {
    && path != ""
    && '\\' !in path
    && '\0' !in path
    && (forall part <- Split(path, '/') :: NormalSegment(part))
    && (forall component <- PathComponents(path) :: component.Normal?)
  }

  /** The platform clause of `SitePath::parse` never rejects what the others accept on Unix. */
  lemma ComponentsClauseIsImplied(path: string)
    requires path != "" && '\\' !in path && '\0' !in path
    requires forall part <- Split(path, '/') :: NormalSegment(part)
    ensures ValidSitePath(path)
  {
    NormalComponents(Split(path, '/'));
    assert NormalSegment(Split(path, '/')[0]);
  }

  lemma {:induction false} NormalComponents(parts: seq<string>)
    requires forall part <- parts :: NormalSegment(part)
    ensures Components(parts) == seq(|parts|, i requires 0 <= i < |parts| => Normal(parts[i]))
  {
    if parts != [] {
      NormalComponents(parts[1..]);
      assert NormalSegment(parts[0]);
    }
  }

  // ---------- Filenames ----------

  /** `Filename::parse`: one flat component. */
  predicate ValidFilename(value: string) {
    '/' !in value && ValidSitePath(value)
  }

  /** `Filename::parse_nested`: a relative path of an archive entry. */
  predicate ValidNested(value: string) {
    ValidSitePath(value)
  }

  /** `Filename::is_html`: the extension after the last dot, ignoring ASCII case. */
  predicate IsHtml(name: string) {
    match RSplitOnce(name, '.')
    case None => false
    case Some((_, extension)) =>
      AsciiLowerAll(extension) == "html" || AsciiLowerAll(extension) == "htm"
  }

  // ---------- Slugs ----------

  const RESERVED_SLUGS: set<string> := {"api", "static", "login", "logout", "new", "s", "health"}

  predicate SlugChar(c: char) {
    'a' <= c <= 'z' || '0' <= c <= '9' || c == '-'
  }

  /** `Slug::parse`; the alphabet is ASCII, so byte and character lengths agree. */
  predicate ValidSlug(value: string) {
    && 3 <= |value| <= 64
    && value[0] != '-'
    && value[|value| - 1] != '-'
    && value !in RESERVED_SLUGS
    && (forall c <- value :: SlugChar(c))
  }

  /** `path.with_extension("old")` on a final component. */
  function WithExtensionOld(name: string): string {
    match RSplitOnce(name, '.')
    case Some((stem, _)) => if stem == "" then name + ".old" else stem + ".old"
    case None => name + ".old"
  }

  /** A parked name is never a slug and identifies the slug it was made from. */
  lemma ParkedNamesAreApart(a: string, b: string)
    requires ValidSlug(a) && ValidSlug(b)
    ensures WithExtensionOld(a) == a + ".old"
    ensures !ValidSlug(WithExtensionOld(a))
    ensures WithExtensionOld(a) != b
    ensures WithExtensionOld(a) == WithExtensionOld(b) ==> a == b
  {
    assert '.' !in a && '.' !in b;
    assert WithExtensionOld(a)[|a|] == '.';
    if WithExtensionOld(a) == WithExtensionOld(b) {
      assert a == (a + ".old")[..|a|] && b == (b + ".old")[..|b|];
    }
  }

  // ---------- Titles and expiries ----------

  const MAX_TITLE_CHARACTERS := 200
  const MAX_TITLE_BYTES := 800

  predicate ValidTitle(value: string) {
    && |Utf8(value)| <= MAX_TITLE_BYTES
    && |value| <= MAX_TITLE_CHARACTERS
    && '\0' !in value && '\r' !in value && '\n' !in value
  }

  datatype Expiry = KeepExpiry | Never | After(seconds: int)

  function ParseExpiry(value: string): Result<Expiry, InputError> {
    if value == "keep" then Ok(KeepExpiry)
    else if value == "" || value == "never" then Ok(Never)
    else if value == "1h" then Ok(After(3_600))
    else if value == "1d" then Ok(After(86_400))
    else if value == "7d" then Ok(After(604_800))
    else if value == "30d" then Ok(After(2_592_000))
    else Err(ExpiryError)
  }
}
