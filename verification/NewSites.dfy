/** Validation of a publication request into a complete, consistent file set. */
module NewSites {
  import opened Archives
  import opened Names
  import opened Passwords
  import opened Strings
  import opened Trees
  import opened Wrappers

  const ENTRY_FILENAME := "index.html"
  const I64_MAX := 0x7FFF_FFFF_FFFF_FFFF

  datatype NewSite = NewSite(
    files: seq<SiteFile>, entry: string, sizeBytes: nat, title: string,
    slug: Option<string>, password: Option<Password>, expiresIn: Option<int>)

  /** An uploaded archive, absent when its directory cannot be read, and its byte cap. */
  datatype Upload = Upload(entries: Option<seq<ZipEntry>>, cap: nat)

  datatype NewSiteBuilder = NewSiteBuilder(
    html: Option<string>, files: Option<seq<SiteFile>>, archive: Option<Upload>,
    entry: Option<string>, title: string, slug: Option<string>, expiresIn: string)

  /** The Unicode `White_Space` characters that `trim` removes. */
  predicate IsWhitespace(c: char) {
    var n := c as int;
    || 0x09 <= n <= 0x0D || n == 0x20 || n == 0x85 || n == 0xA0 || n == 0x1680
    || 0x2000 <= n <= 0x200A || n == 0x2028 || n == 0x2029 || n == 0x202F || n == 0x205F || n == 0x3000
  }

  predicate Blank(text: string) {
    forall c <- text :: IsWhitespace(c)
  }

  /** The files of the one chosen content mode, and whether their names may be nested. */
  function ChosenFiles(builder: NewSiteBuilder): Result<(seq<SiteFile>, bool), InputError> {
    match (builder.html, builder.files, builder.archive)
    case (Some(html), None, None) =>
      if Blank(html) then Err(HtmlError) else Ok(([SiteFile(ENTRY_FILENAME, Utf8(html))], false))
    case (None, Some(files), None) => Ok((files, false))
    case (None, None, Some(upload)) =>
      (match Extracted(upload.entries, upload.cap)
       case Err(error) => Err(error)
       case Ok(files) => Ok((files, true)))
    case _ => Err(ModeError)
  }

  predicate ValidName(name: string, nested: bool) {
    if nested then ValidNested(name) else ValidFilename(name)
  }

  /** The loop of `build`: the checked byte sum of validated, distinct names. */
  function Collected(uploaded: seq<SiteFile>, nested: bool): Result<nat, InputError> {
    if uploaded == [] then Ok(0)
    else
      var front, last := uploaded[..|uploaded| - 1], uploaded[|uploaded| - 1];
      match Collected(front, nested)
      case Err(error) => Err(error)
      case Ok(size) =>
        if !ValidName(last.name, nested) then Err(FilenameError)
        else if exists file <- front :: file.name == last.name then Err(DuplicateFilenameError)
        else if |last.bytes| > I64_MAX || size + |last.bytes| > I64_MAX then Err(SizeError)
        else Ok(size + |last.bytes|)
  }

  predicate HasName(files: seq<SiteFile>, name: string) {
    exists file <- files :: file.name == name
  }

  function TopLevelHtml(files: seq<SiteFile>): seq<string> {
    if files == [] then []
    else
      (if IsHtml(files[0].name) && IsFlat(files[0]) then [files[0].name] else []) + TopLevelHtml(files[1..])
  }

  function SelectEntry(files: seq<SiteFile>, explicit: Option<string>): Result<string, InputError> {
    match explicit
    case Some(name) => if ValidFilename(name) && HasName(files, name) then Ok(name) else Err(EntryError)
    case None =>
      if HasName(files, ENTRY_FILENAME) then Ok(ENTRY_FILENAME)
      else if |TopLevelHtml(files)| == 1 then Ok(TopLevelHtml(files)[0])
      else Err(EntryError)
  }

  function ExpirySeconds(value: string): Result<Option<int>, InputError> {
    match ParseExpiry(value)
    case Err(error) => Err(error)
    case Ok(KeepExpiry) => Err(ExpiryError)
    case Ok(Never) => Ok(None)
    case Ok(After(seconds)) => Ok(Some(seconds))
  }

  function Built(builder: NewSiteBuilder): Result<NewSite, InputError> {
    match ChosenFiles(builder)
    case Err(error) => Err(error)
    case Ok((uploaded, nested)) =>
      if !ValidTitle(builder.title) then Err(TitleError)
      else
        match ExpirySeconds(builder.expiresIn)
        case Err(error) => Err(error)
        case Ok(expiresIn) =>
          if !(1 <= |uploaded| <= MAX_SITE_FILES) then Err(FileCountError)
          else
            match Collected(uploaded, nested)
            case Err(error) => Err(error)
            case Ok(size) =>
              match SelectEntry(uploaded, builder.entry)
              case Err(error) => Err(error)
              case Ok(entry) =>
                Ok(NewSite(uploaded, entry, size, builder.title, builder.slug, None, expiresIn))
  }

  ghost function NamesOf(files: seq<SiteFile>): set<string> {
    set file | file in files :: file.name
  }

  lemma NamesUpTo(files: seq<SiteFile>, index: nat)
    requires index < |files|
    ensures NamesOf(files[..index + 1]) == NamesOf(files[..index]) + {files[index].name}
  {
    assert files[..index + 1] == files[..index] + [files[index]];
  }

  /** The validating loop of `build`. */
  method Collect(uploaded: seq<SiteFile>, nested: bool) returns (result: Result<nat, InputError>)
    ensures result == Collected(uploaded, nested)
  {
    var filenames: set<string> := {};
    var sizeBytes: nat := 0;
    for index := 0 to |uploaded|
      invariant filenames == NamesOf(uploaded[..index])
      invariant Collected(uploaded[..index], nested) == Ok(sizeBytes)
    {
      var file := uploaded[index];
      CollectNext(uploaded, index, nested, sizeBytes, filenames);
      if !ValidName(file.name, nested) { return Err(FilenameError); }
      if file.name in filenames { return Err(DuplicateFilenameError); }
      NamesUpTo(uploaded, index);
      filenames := filenames + {file.name};
      if |file.bytes| > I64_MAX || sizeBytes + |file.bytes| > I64_MAX { return Err(SizeError); }
      sizeBytes := sizeBytes + |file.bytes|;
    }
    assert uploaded[..|uploaded|] == uploaded;
    result := Ok(sizeBytes);
  }

  /** A request becomes a site, or the first objection to it. */
  method Build(builder: NewSiteBuilder) returns (result: Result<NewSite, InputError>)
    ensures result == Built(builder)
  {
    var uploaded: seq<SiteFile>, nested := [], false;
    match (builder.html, builder.files, builder.archive) {
      case (Some(html), None, None) =>
        if Blank(html) { return Err(HtmlError); }
        uploaded := [SiteFile(ENTRY_FILENAME, Utf8(html))];
      case (None, Some(files), None) =>
        uploaded := files;
      case (None, None, Some(upload)) =>
        var extracted := Extract(upload.entries, upload.cap);
        if extracted.Err? { return Err(extracted.error); }
        uploaded, nested := extracted.value, true;
      case _ =>
        return Err(ModeError);
    }
    if !ValidTitle(builder.title) { return Err(TitleError); }
    var expiresIn := ExpirySeconds(builder.expiresIn);
    if expiresIn.Err? { return Err(expiresIn.error); }
    if !(1 <= |uploaded| <= MAX_SITE_FILES) { return Err(FileCountError); }
    var sizeBytes := Collect(uploaded, nested);
    if sizeBytes.Err? { return Err(sizeBytes.error); }
    var entry := SelectEntry(uploaded, builder.entry);
    if entry.Err? { return Err(entry.error); }
    result := Ok(NewSite(uploaded, entry.value, sizeBytes.value, builder.title, builder.slug, None, expiresIn.value));
  }

  lemma CollectNext(uploaded: seq<SiteFile>, index: nat, nested: bool, size: nat, names: set<string>)
    requires index < |uploaded| && Collected(uploaded[..index], nested) == Ok(size)
    requires names == NamesOf(uploaded[..index])
    ensures var file := uploaded[index];
      && Collected(uploaded[..index + 1], nested)
         == (if !ValidName(file.name, nested) then Err(FilenameError)
             else if file.name in names then Err(DuplicateFilenameError)
             else if |file.bytes| > I64_MAX || size + |file.bytes| > I64_MAX then Err(SizeError)
             else Ok(size + |file.bytes|))
      && (Collected(uploaded[..index + 1], nested).Err? ==>
            Collected(uploaded, nested) == Collected(uploaded[..index + 1], nested))
  {
    assert uploaded[..index + 1][..index] == uploaded[..index];
    assert uploaded[index].name in names <==> exists file <- uploaded[..index] :: file.name == uploaded[index].name;
    if Collected(uploaded[..index + 1], nested).Err? { CollectErrorIsFinal(uploaded, index + 1, nested); }
  }

  lemma {:induction false} CollectErrorIsFinal(uploaded: seq<SiteFile>, stop: nat, nested: bool)
    requires stop <= |uploaded| && Collected(uploaded[..stop], nested).Err?
    ensures Collected(uploaded, nested) == Collected(uploaded[..stop], nested)
    decreases |uploaded|
  {
    if stop == |uploaded| {
      assert uploaded[..stop] == uploaded;
    } else {
      var front := uploaded[..|uploaded| - 1];
      assert front[..stop] == uploaded[..stop];
      CollectErrorIsFinal(front, stop, nested);
    }
  }

  // ---------- What an accepted request guarantees ----------

  lemma {:induction false} CollectedIsExact(uploaded: seq<SiteFile>, nested: bool)
    ensures Collected(uploaded, nested).Ok? <==>
            && (forall file <- uploaded :: ValidName(file.name, nested))
            && DistinctNames(uploaded)
            && TotalSize(uploaded) <= I64_MAX
    ensures Collected(uploaded, nested).Ok? ==> Collected(uploaded, nested).value == TotalSize(uploaded)
  {
    if uploaded != [] {
      var front, last := uploaded[..|uploaded| - 1], uploaded[|uploaded| - 1];
      assert uploaded == front + [last];
      assert forall file :: file in uploaded <==> file in front || file == last;
      CollectedIsExact(front, nested);
      assert TotalSize(uploaded) == TotalSize(front) + |last.bytes|;
      DistinctNamesAppend(front, last);
    }
  }

  lemma DistinctNamesAppend(front: seq<SiteFile>, last: SiteFile)
    ensures DistinctNames(front + [last]) <==> DistinctNames(front) && !HasName(front, last.name)
  {
    var files := front + [last];
    if DistinctNames(files) {
      forall i, j | 0 <= i < j < |front| ensures front[i].name != front[j].name {
        assert files[i].name != files[j].name;
      }
      forall file <- front ensures file.name != last.name {
        var i :| 0 <= i < |front| && front[i] == file;
        assert files[i].name != files[|front|].name;
      }
    }
    if DistinctNames(front) && !HasName(front, last.name) {
      forall i, j | 0 <= i < j < |files| ensures files[i].name != files[j].name {
        if j == |front| { assert front[i] in front; }
      }
    }
  }

  predicate IsTopLevelHtml(files: seq<SiteFile>, name: string) {
    IsHtml(name) && exists file <- files :: file.name == name && IsFlat(file)
  }

  lemma {:induction false} TopLevelHtmlIsExact(files: seq<SiteFile>)
    ensures forall name :: name in TopLevelHtml(files) <==> IsTopLevelHtml(files, name)
  {
    if files != [] {
      TopLevelHtmlIsExact(files[1..]);
      assert forall file :: file in files <==> file == files[0] || file in files[1..];
    }
  }

  lemma OncePrepend<T>(x: T, s: seq<T>)
    requires Once(s) && x !in s
    ensures Once([x] + s)
  {
    forall i, j | 0 <= i < j < |[x] + s| ensures ([x] + s)[i] != ([x] + s)[j] {
      assert ([x] + s)[j] == s[j - 1];
    }
  }

  lemma OnceAndConstant<T>(s: seq<T>, x: T)
    requires Once(s) && x in s && forall y <- s :: y == x
    ensures s == [x]
  {
    if |s| >= 2 {
      OnceHasAnother(s, x);
      assert false;
    }
  }

  lemma OnceHasAnother<T>(s: seq<T>, x: T)
    requires Once(s) && |s| >= 2
    ensures exists y <- s :: y != x
  {
    assert s[0] in s && s[1] in s && s[0] != s[1];
  }

  lemma {:induction false} TopLevelHtmlIsDistinct(files: seq<SiteFile>)
    requires DistinctNames(files)
    ensures Once(TopLevelHtml(files))
  {
    if files != [] {
      var rest := files[1..];
      TopLevelHtmlIsExact(rest);
      forall i, j | 0 <= i < j < |rest| ensures rest[i].name != rest[j].name {
        assert files[i + 1].name != files[j + 1].name;
      }
      TopLevelHtmlIsDistinct(rest);
      forall name <- TopLevelHtml(rest) ensures name != files[0].name {
        assert IsTopLevelHtml(rest, name);
        var file :| file in rest && file.name == name;
        var i :| 0 <= i < |rest| && rest[i] == file;
        assert files[i + 1] == file;
      }
      assert TopLevelHtml(files) == TopLevelHtml(rest) || TopLevelHtml(files) == [files[0].name] + TopLevelHtml(rest);
      OncePrepend(files[0].name, TopLevelHtml(rest));
    }
  }

  /** A file of the site at its top level. */
  predicate TopLevelFile(files: seq<SiteFile>, name: string) {
    ValidFilename(name) && HasName(files, name)
  }

  /**
   * Which name becomes the entry: the requested one if it lies at the top; without a request the index;
   * without an index the HTML file at the top that has no second beside it.
   */
  lemma EntrySelectionIsExact(files: seq<SiteFile>, explicit: Option<string>, name: string)
    requires ValidNames(files) && DistinctNames(files)
    ensures SelectEntry(files, explicit) == Ok(name) <==>
            && TopLevelFile(files, name)
            && (explicit.Some? ==> explicit.value == name)
            && (explicit.None? && name != ENTRY_FILENAME ==>
                  && !HasName(files, ENTRY_FILENAME)
                  && IsHtml(name)
                  && (forall file <- files :: IsHtml(file.name) && IsFlat(file) ==> file.name == name))
  {
    if HasName(files, ENTRY_FILENAME) {
      var file :| file in files && file.name == ENTRY_FILENAME;
      assert ValidNested(file.name) && '/' !in file.name;
    } else if explicit.None? {
      SoleTopLevelHtml(files, name);
    }
  }

  /** Without a request and an index, a name is chosen exactly when no other HTML file lies at the top. */
  lemma SoleTopLevelHtml(files: seq<SiteFile>, name: string)
    requires ValidNames(files) && DistinctNames(files)
    ensures TopLevelHtml(files) == [name] <==>
            && TopLevelFile(files, name)
            && IsHtml(name)
            && (forall file <- files :: IsHtml(file.name) && IsFlat(file) ==> file.name == name)
  {
    var html := TopLevelHtml(files);
    TopLevelHtmlIsExact(files);
    TopLevelHtmlIsDistinct(files);
    if html == [name] {
      assert name in html;
      forall other <- files | IsHtml(other.name) && IsFlat(other) ensures other.name == name {
        assert IsTopLevelHtml(files, other.name);
        assert other.name in html;
      }
    }
    if TopLevelFile(files, name) && IsHtml(name)
       && forall file <- files :: IsHtml(file.name) && IsFlat(file) ==> file.name == name {
      assert IsTopLevelHtml(files, name);
      assert name in html;
      OnceAndConstant(html, name);
    }
  }

  /** A complete, validated file set with a top-level entry and its exact size. */
  predicate ValidSite(site: NewSite) {
    && 1 <= |site.files| <= MAX_SITE_FILES
    && ValidNames(site.files)
    && DistinctNames(site.files)
    && site.sizeBytes == TotalSize(site.files) <= I64_MAX
    && TopLevelFile(site.files, site.entry)
  }

  /** The content conditions that one request must meet, whatever mode it chose. */
  predicate AcceptableFiles(files: seq<SiteFile>, nested: bool, explicit: Option<string>) {
    && 1 <= |files| <= MAX_SITE_FILES
    && (forall file <- files :: ValidName(file.name, nested))
    && DistinctNames(files)
    && TotalSize(files) <= I64_MAX
    && SelectEntry(files, explicit).Ok?
  }

  /** `build` accepts exactly the acceptable requests, and what it returns is a valid site. */
  lemma BuildIsExact(builder: NewSiteBuilder)
    ensures Built(builder).Ok? <==>
            && ChosenFiles(builder).Ok?
            && ValidTitle(builder.title)
            && ExpirySeconds(builder.expiresIn).Ok?
            && AcceptableFiles(ChosenFiles(builder).value.0, ChosenFiles(builder).value.1, builder.entry)
    ensures Built(builder).Ok? ==>
            var site := Built(builder).value;
            && ValidSite(site)
            && site.files == ChosenFiles(builder).value.0
            && SelectEntry(site.files, builder.entry) == Ok(site.entry)
            && (!ChosenFiles(builder).value.1 ==> forall file <- site.files :: IsFlat(file))
  {
    if ChosenFiles(builder).Ok? {
      var (files, nested) := ChosenFiles(builder).value;
      CollectedIsExact(files, nested);
      if Built(builder).Ok? {
        EntrySelectionIsExact(files, builder.entry, Built(builder).value.entry);
      }
    }
  }

  /** A name that extraction returns is never what `build` objects to. */
  lemma ExtractedNamesAreAccepted(upload: Upload)
    requires Extracted(upload.entries, upload.cap).Ok?
    ensures var files := Extracted(upload.entries, upload.cap).value;
      && |files| <= MAX_SITE_FILES
      && Collected(files, true) != Err(FilenameError)
      && (upload.cap <= I64_MAX && DistinctNames(files) ==> Collected(files, true) == Ok(TotalSize(files)))
  {
    var files := Extracted(upload.entries, upload.cap).value;
    ExtractionIsClosed(upload.entries, upload.cap);
    CollectedIsExact(files, true);
    NeverAFilenameError(files);
  }

  lemma {:induction false} NeverAFilenameError(files: seq<SiteFile>)
    requires ValidNames(files)
    ensures Collected(files, true) != Err(FilenameError)
  {
    if files != [] {
      assert forall file <- files[..|files| - 1] :: file in files;
      NeverAFilenameError(files[..|files| - 1]);
    }
  }

  // ---------- Download and publish again ----------

  /** The downloaded archive of a published site, submitted as it is with the same entry. */
  function Republication(entries: seq<ZipEntry>, cap: nat, entry: string): NewSiteBuilder {
    NewSiteBuilder(None, None, Some(Upload(Some(entries), cap)), Some(entry), "", None, "")
  }

  /**
   * For every accepted site that could be staged, the archive packed from its directory extracts
   * to the same files, and publishing that archive again is accepted with the same entry and size.
   */
  lemma BuiltSiteRoundTrip(builder: NewSiteBuilder, t: Tree, entries: seq<ZipEntry>, cap: nat)
    requires Built(builder).Ok? && WriteAll(Built(builder).value.files) == Some(t) && Packs(t, entries)
    requires Built(builder).value.sizeBytes <= cap <= USIZE_MAX
    ensures var site := Built(builder).value;
      && Extracted(Some(entries), cap).Ok?
      && multiset(Extracted(Some(entries), cap).value) == multiset(site.files)
      && var again := Built(Republication(entries, cap, site.entry));
         && again.Ok?
         && multiset(again.value.files) == multiset(site.files)
         && again.value.entry == site.entry
         && again.value.sizeBytes == site.sizeBytes
         && WriteAll(again.value.files) == Some(t)
  {
    BuildIsExact(builder);
    var site := Built(builder).value;
    var entry :| entry in site.files && entry.name == site.entry;
    FlatEntryRoundTrip(site.files, entry, t, entries, cap);
    var files := Extracted(Some(entries), cap).value;
    SameFiles(files, site.files);
    StagingIsExact(site.files, files);
    StagedFiles(files, t);
    PrefixFreeHasDistinctNames(files);
    assert HasName(files, site.entry) by { assert entry in files; }
    CollectedIsExact(files, true);
    var again := Republication(entries, cap, site.entry);
    BlankTitleIsValid();
    BuildIsExact(again);
  }

  lemma BlankTitleIsValid()
    ensures ValidTitle("")
  {
    assert Utf8("") == [];
  }
}
