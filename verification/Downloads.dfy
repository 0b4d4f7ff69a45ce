/** Downloading a site as an archive, and what such an archive is worth. */
module Downloads {
  import opened Archives
  import opened Calls
  import opened Histories
  import opened Invariants
  import opened Machine
  import opened Names
  import opened Protocol
  import opened Safety
  import opened Steps
  import opened Stores
  import opened Trees
  import opened Wrappers

  /** The archive lists exactly the content that the lock protected, or there is no such row. */
  ghost predicate DownloadOutcome(before: State, after: State, slug: string,
                                  outcome: Result<Option<seq<ZipEntry>>, Failure>, faulted: bool)
  {
    && Unchanged(before, after)
    && match outcome
       case Ok(None) => slug !in before.rows
       case Ok(Some(entries)) => slug in before.rows && slug in before.sites && Packs(before.sites[slug], entries)
       case Err(failure) => failure.Operational? && faulted
  }

  /** Lists the content of a site for a download, with all mutations shut out. */
  method ArchiveSite(store: Store, id: JobId, slug: string) returns (outcome: Result<Option<seq<ZipEntry>>, Failure>)
    requires store.Valid() && store.phase.Serving? && id !in store.jobs && ValidSlug(slug)
    modifies store
    ensures store.Valid() && store.phase.Serving?
    ensures CallOf(store.history, id, Archive(slug), old(store.history.trace), old(store.pending))
    ensures if outcome == Err(Unfinished) then StillWaiting(store.World(), store.pending, id, Archive(slug)) else id !in store.jobs
    ensures store.history.locked.None? ==> KeptOut(store.history) && outcome == Err(Unfinished)
    ensures store.history.locked.Some? ==>
      && Sound(store.World())
      && DownloadOutcome(Reached(store.history.locked.value), store.World(), slug, outcome, store.faults > 0)
  {
    var acquired := LockFor(store, id, Archive(slug));
    if !acquired { return Err(Unfinished); }
    outcome := ArchiveLocked(store, id, slug);
  }

  method ArchiveLocked(store: Store, id: JobId, slug: string) returns (outcome: Result<Option<seq<ZipEntry>>, Failure>)
    requires store.Valid() && store.Holds(id, Archive(slug), Finding, NO_CONTENT)
    modifies store
    ensures store.Valid() && store.phase.Serving? && id !in store.jobs && Sound(store.World())
    ensures store.Plan() == old(store.Plan()) && store.faults >= old(store.faults)
    ensures DownloadOutcome(old(store.World()), store.World(), slug, outcome, store.faults > old(store.faults))
  {
    var found := FindRow(store, id, Archive(slug), NO_CONTENT);
    if found.Done? {
      var packed := PackSite(store, id, slug);
      outcome := if packed.Some? then Ok(packed) else Err(Operational);
    } else {
      outcome := if found.Refused? then Ok(None) else Err(Operational);
    }
    store.Release(id);
  }

  method PackSite(store: Store, id: JobId, slug: string) returns (packed: Option<seq<ZipEntry>>)
    requires store.Valid() && store.Holds(id, Archive(slug), Packing, NO_CONTENT) && slug in store.rows
    modifies store
    ensures store.Plan() == old(store.Plan())
    ensures store.Valid() && store.Holds(id, Archive(slug), Releasing, NO_CONTENT)
    ensures store.rows == old(store.rows) && store.sites == old(store.sites)
    ensures packed.Some? ==> slug in store.sites && Packs(store.sites[slug], packed.value)
    ensures store.faults == old(store.faults) + if packed.Some? then 0 else 1
  {
    store.Interfere(id);
    packed := PackNow(store, id, slug);
  }

  method PackNow(store: Store, id: JobId, slug: string) returns (packed: Option<seq<ZipEntry>>)
    requires store.Valid() && store.Holds(id, Archive(slug), Packing, NO_CONTENT) && slug in store.rows
    modifies store`jobs, store`history, store`faults, store`draws
    ensures store.Plan() == old(store.Plan())
    ensures store.Valid() && store.Holds(id, Archive(slug), Releasing, NO_CONTENT)
    ensures packed.Some? ==> slug in store.sites && Packs(store.sites[slug], packed.value)
    ensures store.faults == old(store.faults) + if packed.Some? then 0 else 1
  {
    PackingKnows(store.World(), id);
    packed := None;
    var fault := store.Fault();
    if !fault {
      var entries := Pack(store.sites[slug]);
      packed := Some(entries);
    }
    ghost var choice := if fault then Fail else Proceed;
    PackTakes(store.World(), id, choice);
    store.Conclude(id, Some(Job(Archive(slug), Releasing, NO_CONTENT)), store.World(), choice);
  }

  lemma PackingKnows(s: State, id: JobId)
    requires Reachable(s) && id in s.jobs && s.jobs[id].pc.Packing? && s.jobs[id].task.Archive? && s.phase.Serving?
    requires s.jobs[id].task.slug in s.rows
    ensures s.jobs[id].task.slug in s.sites && WellFormed(s.sites[s.jobs[id].task.slug])
  {
    Known(s, id);
    RowHasContent(s, s.jobs[id].task.slug);
    WholeIsWellFormed(s.sites[s.jobs[id].task.slug]);
  }

  lemma WholeIsWellFormed(tree: Tree)
    requires Whole(tree)
    ensures WellFormed(tree)
  {
    var files :| Staged(files, tree);
    StagedFiles(files, tree);
  }

  /**
   * The archive of a site whose row describes it, uploaded again under a sufficient cap, is accepted and
   * has exactly the same names and bytes: its entry is a top-level file, so nothing is stripped.
   */
  lemma DownloadsCanBeRepublished(row: Row, tree: Tree, entries: seq<ZipEntry>, cap: nat)
    requires Consistent(row, tree) && Packs(tree, entries) && row.sizeBytes <= cap <= USIZE_MAX
    ensures Extracted(Some(entries), cap).Ok?
    ensures var files := Extracted(Some(entries), cap).value;
      Elements(files) == Flatten(tree) && |files| == row.fileCount && TotalSize(files) == row.sizeBytes
  {
    var files: seq<SiteFile> :| Staged(files, tree) && Describes(row, files);
    var entry: SiteFile :| entry in files && entry.name == row.entry;
    FlatEntryRoundTrip(files, entry, tree, entries, cap);
    StagedFiles(files, tree);
    SameFiles(files, Extracted(Some(entries), cap).value);
  }
}
