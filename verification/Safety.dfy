/** What the storage protocol promises about every run, every crash and every boot. */
module Safety {
  import opened Archives
  import opened Invariants
  import opened Machine
  import opened Names
  import opened NewSites
  import opened Passwords
  import opened Protocol
  import opened Runs
  import opened SiteSettings
  import opened Strings
  import opened Trees
  import opened Wrappers

  // ---------- Whenever the lock is free ----------

  /** Every committed row has a directory that is one whole file set, and describes it unless it is stale. */
  ghost predicate Sound(s: State) {
    forall slug | slug in s.rows ::
      && slug in s.sites
      && Whole(s.sites[slug])
      && (slug !in s.stale ==> Consistent(s.rows[slug], s.sites[slug]))
  }

  lemma ServedSitesAreWhole(events: seq<Event>)
    requires FreshRun(events) && Reached(events).phase.Serving? && Reached(events).holder.None?
    ensures Sound(Reached(events))
  {
    RunKeepsInvariant(events);
    FreeLockIsSound(Reached(events));
  }

  lemma FreeLockIsSound(s: State)
    requires Inv(s) && s.phase.Serving? && s.holder.None?
    ensures Sound(s)
  {
    forall slug | slug in s.rows
      ensures slug in s.sites && Whole(s.sites[slug])
      ensures slug !in s.stale ==> Consistent(s.rows[slug], s.sites[slug])
    {
      assert SiteOk(s, slug);
    }
  }

  /** Every row the service ever stores decodes, to exactly the credential its writers meant. */
  lemma StoredAccessIsReadable(events: seq<Event>, slug: string)
    requires FreshRun(events) && slug in Reached(events).rows
    ensures StoredAccess(Reached(events).rows[slug]) == Ok(CurrentPassword(Reached(events).rows[slug]))
  {
    RunKeepsInvariant(events);
    assert SiteOk(Reached(events), slug);
  }

  /** The process did not die between the swap of a replacement and the writing of its row. */
  predicate NoTornCrash(s: State, event: Event) {
    event.Crash? ==> Torn(s) == {}
  }

  /** Only a crash inside that window can leave a row that does not describe its content. */
  lemma NothingStale(events: seq<Event>)
    requires Admissible(Next, EMPTY_STORE, events, NoTornCrash)
    ensures Reached(events).stale == {}
  {
    forall s, e | IsFresh(s) && NoTornCrash(s, e) ensures IsFresh(Next(s, e)) { NextKeepsFresh(s, e); }
    Invariance(Next, EMPTY_STORE, events, NoTornCrash, IsFresh);
  }

  predicate IsFresh(s: State) {
    s.stale == {}
  }

  lemma NextKeepsFresh(s: State, event: Event)
    requires IsFresh(s) && NoTornCrash(s, event)
    ensures IsFresh(Next(s, event))
  {}

  /** The row's entry is a regular file at the top, and its counts are those of any listing of the tree. */
  lemma ConsistentRowDescribesTree(row: Row, tree: Tree, listing: seq<SiteFile>)
    requires Consistent(row, tree) && DistinctNames(listing) && Elements(listing) == Flatten(tree)
    ensures IsFile(tree, [row.entry])
    ensures row.fileCount == |listing| && row.sizeBytes == TotalSize(listing)
  {
    var files: seq<SiteFile> :| Staged(files, tree) && Describes(row, files);
    EntryIsStaged(files, tree, row.entry);
    ListingsAgree(files, tree, listing);
  }

  lemma EntryIsStaged(files: seq<SiteFile>, tree: Tree, name: string)
    requires ValidNames(files) && WriteAll(files) == Some(tree) && TopLevelFile(files, name)
    ensures IsFile(tree, [name])
  {
    var entry: SiteFile :| entry in files && entry.name == name;
    SplitWithout(name, '/');
    WriteAllCorrect(files);
    assert Parts(entry) in tree && tree[Parts(entry)] == File(entry.bytes);
  }

  lemma ListingsAgree(files: seq<SiteFile>, tree: Tree, listing: seq<SiteFile>)
    requires ValidNames(files) && DistinctNames(files) && WriteAll(files) == Some(tree)
    requires DistinctNames(listing) && Elements(listing) == Flatten(tree)
    ensures |files| == |listing| && TotalSize(files) == TotalSize(listing)
  {
    StagedFiles(files, tree);
    SameMembers(files, listing, Flatten(tree));
    DistinctNamesSameFiles(files, listing);
    assert |multiset(files)| == |multiset(listing)|;
    SumReordered(files, listing, ByteLength);
  }

  // ---------- Which columns each write touches ----------

  /** Everything about a row but what publication, replacement or a settings change is for. */
  predicate SameIdentity(a: Row, b: Row) {
    a.title == b.title && a.visibility == b.visibility && a.passwordHash == b.passwordHash
    && a.createdAt == b.createdAt && a.expiresAt == b.expiresAt
  }

  /** A site of the given age expires the requested time from now, or at the end of time. */
  predicate ExpiresAfter(expiresAt: Option<int>, now: int, seconds: int) {
    expiresAt.Some? && expiresAt.value <= now + seconds && expiresAt.value <= I64_MAX
    && (expiresAt.value == now + seconds || expiresAt.value == I64_MAX)
  }

  /** The row of a new site, column by column. */
  ghost predicate IsNewRow(row: Row, input: NewSite, now: int) {
    && CheckConstraint(row) && StoredAccess(row) == Ok(input.password) && row.passwordHash == input.password
    && row.title == input.title && row.entry == input.entry && row.createdAt == now && row.updatedAt == now
    && row.fileCount == |input.files| && row.sizeBytes == input.sizeBytes
    && (if input.expiresIn.None? then row.expiresAt.None? else ExpiresAfter(row.expiresAt, now, input.expiresIn.value))
  }

  /** A replacement touches entry, counts and update time, and keeps title, access, age and expiry. */
  ghost predicate IsReplacement(row: Row, replaced: Row, input: NewSite, now: int) {
    && SameIdentity(replaced, row) && StoredAccess(replaced) == StoredAccess(row)
    && replaced.entry == input.entry && replaced.updatedAt == now
    && replaced.fileCount == |input.files| && replaced.sizeBytes == input.sizeBytes
  }

  /** A save keeps the counts and the age; access and expiry follow the explicit choices against the current row. */
  ghost predicate IsSave(row: Row, saved: Row, settings: Settings, now: int) {
    && CheckConstraint(saved)
    && saved.title == settings.title && saved.entry == settings.entry && saved.updatedAt == now
    && saved.fileCount == row.fileCount && saved.sizeBytes == row.sizeBytes && saved.createdAt == row.createdAt
    && (match settings.access
        case OpenAccess => StoredAccess(saved) == Ok(None) && saved.passwordHash.None?
        case KeepAccess => StoredAccess(saved) == StoredAccess(row)
        case SetAccess(password) => StoredAccess(saved) == Ok(Some(password)))
    && (match settings.expiry
        case KeepExpiry => saved.expiresAt == row.expiresAt
        case Never => saved.expiresAt.None?
        case After(seconds) => ExpiresAfter(saved.expiresAt, now, seconds))
  }

  lemma PublishedColumns(input: NewSite, now: int)
    ensures IsNewRow(NewRow(input, now), input, now)
  {}

  lemma ReplacedColumns(row: Row, input: NewSite, now: int)
    ensures IsReplacement(row, ReplacedRow(row, input, now), input, now)
  {}

  lemma SavedColumns(row: Row, settings: Settings, now: int)
    requires CheckConstraint(row) && (settings.access.KeepAccess? ==> CurrentPassword(row).Some?)
    ensures IsSave(row, UpdatedRow(row, settings, now), settings, now)
  {}

  /** What the builders accept is what jobs may be asked to do. */
  lemma BuiltRequestsAreAdmissible(site: NewSiteBuilder, settings: SettingsBuilder, slug: string, password: Option<Password>)
    requires ValidSlug(slug) && (site.slug.Some? ==> ValidSlug(site.slug.value))
    ensures Built(site).Ok? ==>
      && ValidTask(Publish(Built(site).value.(password := password)))
      && ValidTask(Replace(slug, Built(site).value))
    ensures BuiltSettings(settings).Ok? ==> ValidTask(Update(slug, BuiltSettings(settings).value))
    ensures BuiltSettings(settings).Ok? <==>
            && ValidTitle(settings.title) && ValidFilename(settings.entry) && settings.access.Some?
            && ParseExpiry(settings.expiresIn).Ok?
  {
    BuildIsExact(site);
  }

  // ---------- Crash and boot ----------

  /** The calls of a boot, one after the other. */
  function Boots(decisions: seq<BootChoice>): seq<Event> {
    seq(|decisions|, i requires 0 <= i < |decisions| => Boot(decisions[i]))
  }

  lemma OneMoreBoot(s: State, decisions: seq<BootChoice>)
    requires decisions != []
    ensures var front, last := decisions[..|decisions| - 1], decisions[|decisions| - 1];
      Run(Next, s, Boots(decisions)) == BootStep(Run(Next, s, Boots(front)), last)
  {
    var front, last := decisions[..|decisions| - 1], decisions[|decisions| - 1];
    assert Boots(decisions) == Boots(front) + [Boot(last)];
    RunAppend(Next, s, Boots(front), Boot(last));
  }

  predicate OnTmp(decisions: seq<BootChoice>) {
    forall decision <- decisions :: decision.RemoveTmp? || decision.ShrinkTmp?
  }

  predicate OnSites(decisions: seq<BootChoice>) {
    forall decision <- decisions :: decision.RemoveSite? || decision.ShrinkSite?
  }

  predicate OnRows(decisions: seq<BootChoice>) {
    forall decision <- decisions :: decision.DropRow?
  }

  lemma FrontAndLast<T>(s: seq<T>)
    requires s != []
    ensures forall x :: x in s <==> x in s[..|s| - 1] || x == s[|s| - 1]
  {
    assert s == s[..|s| - 1] + [s[|s| - 1]];
  }

  /** Whatever is removed from `tmp` stays removed, and nothing else changes. */
  lemma {:induction false} TmpIsCleared(s: State, decisions: seq<BootChoice>)
    requires s.phase.ClearingTmp? && OnTmp(decisions)
    ensures var after := Run(Next, s, Boots(decisions));
      && after == s.(tmp := after.tmp) && after.tmp.Keys <= s.tmp.Keys
      && (forall name | RemoveTmp(name) in decisions :: name !in after.tmp)
  {
    if decisions != [] {
      FrontAndLast(decisions);
      TmpIsCleared(s, decisions[..|decisions| - 1]);
      OneMoreBoot(s, decisions);
    }
  }

  /** Whatever orphan is removed stays removed, and no content with a row changes. */
  lemma {:induction false} OrphansAreCleared(s: State, decisions: seq<BootChoice>)
    requires s.phase.ClearingSites? && OnSites(decisions)
    ensures var after := Run(Next, s, Boots(decisions));
      && after == s.(sites := after.sites) && after.sites.Keys <= s.sites.Keys
      && (forall slug | slug in s.rows :: SameAt(after.sites, s.sites, slug))
      && (forall name | RemoveSite(name) in decisions && name !in s.rows :: name !in after.sites)
  {
    if decisions != [] {
      FrontAndLast(decisions);
      OrphansAreCleared(s, decisions[..|decisions| - 1]);
      OneMoreBoot(s, decisions);
    }
  }

  /** Whatever row without content is dropped stays dropped, and no other row changes. */
  lemma {:induction false} RowsAreDropped(s: State, decisions: seq<BootChoice>)
    requires s.phase.DroppingRows? && OnRows(decisions)
    ensures var after := Run(Next, s, Boots(decisions));
      && after == s.(rows := after.rows, stale := after.stale) && after.rows.Keys <= s.rows.Keys
      && (forall slug | slug in after.rows :: after.rows[slug] == s.rows[slug])
      && (forall slug | slug in s.rows && slug in s.sites :: slug in after.rows)
      && (forall slug | DropRow(slug) in decisions && slug !in s.sites :: slug !in after.rows)
  {
    if decisions != [] {
      FrontAndLast(decisions);
      RowsAreDropped(s, decisions[..|decisions| - 1]);
      OneMoreBoot(s, decisions);
    }
  }

  /** The calls of a whole boot, whatever partial or repeated removals it contains. */
  function WholeBoot(clearing: seq<BootChoice>, orphans: seq<BootChoice>, missing: seq<BootChoice>): seq<BootChoice> {
    clearing + [TmpDone] + orphans + [SitesDone] + missing + [RowsDone]
  }

  /**
   * From any state that a crash leaves, a boot that removes every entry of `tmp`, every orphan and every
   * row without content serves an empty `tmp` and the slugs that both stores held, each with its row and
   * content as before and every directory whole.
   */
  lemma BootIsComplete(s: State, clearing: seq<BootChoice>, orphans: seq<BootChoice>, missing: seq<BootChoice>)
    requires Inv(s) && s.phase.ClearingTmp? && OnTmp(clearing) && OnSites(orphans) && OnRows(missing)
    requires forall name | name in s.tmp :: RemoveTmp(name) in clearing
    requires forall name | name in s.sites && name !in s.rows :: RemoveSite(name) in orphans
    requires forall slug | slug in s.rows && slug !in s.sites :: DropRow(slug) in missing
    ensures var booted := Run(Next, s, Boots(WholeBoot(clearing, orphans, missing)));
      Reconciled(s, booted) && Sound(booted)
  {
    BootedStores(s, clearing, orphans, missing);
    BootsKeepInvariant(s, WholeBoot(clearing, orphans, missing));
    FreeLockIsSound(Run(Next, s, Boots(WholeBoot(clearing, orphans, missing))));
  }

  /** Serving, with nothing staged, exactly the slugs that both stores held, each with its row and content as before. */
  ghost predicate Reconciled(s: State, booted: State) {
    && booted.phase.Serving? && booted.holder.None? && booted.tmp == map[]
    && booted.rows.Keys == booted.sites.Keys == s.rows.Keys * s.sites.Keys
    && (forall slug | slug in booted.rows ::
          booted.rows[slug] == s.rows[slug] && booted.sites[slug] == s.sites[slug])
  }

  lemma BootedStores(s: State, clearing: seq<BootChoice>, orphans: seq<BootChoice>, missing: seq<BootChoice>)
    requires Inv(s) && s.phase.ClearingTmp? && OnTmp(clearing) && OnSites(orphans) && OnRows(missing)
    requires forall name | name in s.tmp :: RemoveTmp(name) in clearing
    requires forall name | name in s.sites && name !in s.rows :: RemoveSite(name) in orphans
    requires forall slug | slug in s.rows && slug !in s.sites :: DropRow(slug) in missing
    ensures Reconciled(s, Run(Next, s, Boots(WholeBoot(clearing, orphans, missing))))
  {
    ClearedStores(s, clearing, orphans);
    RowsAreReconciled(s, Paired(s, clearing, orphans), missing);
    BootRunsOn(s, clearing, orphans, missing);
  }

  /** Nothing is staged, and content without a row is gone. */
  ghost predicate Cleared(s: State, paired: State) {
    && paired.phase.DroppingRows? && paired.tmp == map[] && paired.rows == s.rows && paired.holder.None?
    && paired.sites.Keys <= s.sites.Keys
    && (forall slug | slug in s.rows :: SameAt(paired.sites, s.sites, slug))
    && (forall name | name in s.sites && name !in s.rows :: name !in paired.sites)
  }

  lemma RowsAreReconciled(s: State, paired: State, missing: seq<BootChoice>)
    requires Cleared(s, paired) && OnRows(missing)
    requires forall slug | slug in s.rows && slug !in s.sites :: DropRow(slug) in missing
    ensures Reconciled(s, BootStep(Run(Next, paired, Boots(missing)), RowsDone))
  {
    var dropped := Run(Next, paired, Boots(missing));
    RowsAreDropped(paired, missing);
    BothStoresAgree(s, paired, dropped, missing);
    RowsDoneServes(s, dropped);
  }

  lemma RowsDoneServes(s: State, dropped: State)
    requires dropped.phase.DroppingRows? && dropped.tmp == map[] && dropped.holder.None?
    requires dropped.rows.Keys == dropped.sites.Keys == s.rows.Keys * s.sites.Keys
    requires forall slug | slug in dropped.rows :: dropped.rows[slug] == s.rows[slug] && dropped.sites[slug] == s.sites[slug]
    ensures Reconciled(s, BootStep(dropped, RowsDone))
  {}

  /** The state in which the rows without content are about to be dropped. */
  function Paired(s: State, clearing: seq<BootChoice>, orphans: seq<BootChoice>): State {
    BootStep(Run(Next, BootStep(Run(Next, s, Boots(clearing)), TmpDone), Boots(orphans)), SitesDone)
  }

  lemma ClearedStores(s: State, clearing: seq<BootChoice>, orphans: seq<BootChoice>)
    requires Inv(s) && s.phase.ClearingTmp? && OnTmp(clearing) && OnSites(orphans)
    requires forall name | name in s.tmp :: RemoveTmp(name) in clearing
    requires forall name | name in s.sites && name !in s.rows :: RemoveSite(name) in orphans
    ensures Cleared(s, Paired(s, clearing, orphans))
  {
    TmpIsCleared(s, clearing);
    assert Run(Next, s, Boots(clearing)).tmp == map[];
    OrphansAreCleared(BootStep(Run(Next, s, Boots(clearing)), TmpDone), orphans);
  }

  lemma BothStoresAgree(s: State, paired: State, dropped: State, missing: seq<BootChoice>)
    requires paired.rows == s.rows && paired.sites.Keys <= s.sites.Keys
    requires forall slug | slug in s.rows :: SameAt(paired.sites, s.sites, slug)
    requires forall name | name in s.sites && name !in s.rows :: name !in paired.sites
    requires forall slug | slug in s.rows && slug !in s.sites :: DropRow(slug) in missing
    requires dropped.sites == paired.sites && dropped.rows.Keys <= paired.rows.Keys
    requires forall slug | slug in dropped.rows :: dropped.rows[slug] == paired.rows[slug]
    requires forall slug | slug in paired.rows && slug in paired.sites :: slug in dropped.rows
    requires forall slug | DropRow(slug) in missing && slug !in paired.sites :: slug !in dropped.rows
    ensures dropped.rows.Keys == dropped.sites.Keys == s.rows.Keys * s.sites.Keys
    ensures forall slug | slug in dropped.rows ::
              slug in s.sites && dropped.rows[slug] == s.rows[slug] && dropped.sites[slug] == s.sites[slug]
  {
    forall slug ensures slug in dropped.sites <==> slug in s.rows && slug in s.sites {
      if slug in s.rows { assert SameAt(paired.sites, s.sites, slug); }
    }
  }

  /** The run of a whole boot, phase by phase. */
  lemma BootRunsOn(s: State, clearing: seq<BootChoice>, orphans: seq<BootChoice>, missing: seq<BootChoice>)
    ensures var paired := Paired(s, clearing, orphans);
      Run(Next, s, Boots(WholeBoot(clearing, orphans, missing)))
      == BootStep(Run(Next, paired, Boots(missing)), RowsDone)
  {
    var first := clearing + [TmpDone];
    var second := first + orphans + [SitesDone];
    BootPhase(s, [], clearing, TmpDone);
    assert [] + clearing + [TmpDone] == first;
    BootPhase(s, first, orphans, SitesDone);
    BootPhase(s, second, missing, RowsDone);
    assert Run(Next, s, Boots([])) == s;
  }

  lemma BootPhase(s: State, before: seq<BootChoice>, decisions: seq<BootChoice>, done: BootChoice)
    ensures Run(Next, s, Boots(before + decisions + [done]))
         == BootStep(Run(Next, Run(Next, s, Boots(before)), Boots(decisions)), done)
  {
    var all := before + decisions + [done];
    assert all[..|all| - 1] == before + decisions;
    OneMoreBoot(s, all);
    assert Boots(before + decisions) == Boots(before) + Boots(decisions);
    RunConcat(Next, s, Boots(before), Boots(decisions));
  }

  lemma {:induction false} BootsKeepInvariant(s: State, decisions: seq<BootChoice>)
    requires Inv(s)
    ensures Inv(Run(Next, s, Boots(decisions)))
  {
    if decisions != [] {
      var front, last := decisions[..|decisions| - 1], decisions[|decisions| - 1];
      BootsKeepInvariant(s, front);
      OneMoreBoot(s, decisions);
      BootKeepsInvariant(Run(Next, s, Boots(front)), last);
    }
  }

  predicate Restarts(events: seq<Event>) {
    forall event <- events :: event.Boot? || event.Crash?
  }

  /**
   * After a crash at any point and any boot, itself crashing any number of times, every site is what it
   * was, except the one whose replacement was between its renames: it is gone if its name was unoccupied,
   * and has the new content under the old row if that was already in place.
   */
  lemma {:induction false} RecoveryKeepsEverySite(s: State, boot: seq<Event>, slug: string)
    requires Inv(s) && Restarts(boot)
    ensures var recovered := Run(Next, Crashed(s), boot);
      && Inv(recovered) && recovered.jobs == map[]
      && SiteAt(recovered, slug)
         == if !MidSwap(s, slug) then SiteAt(s, slug)
            else if slug in Torn(s) then Some((s.rows[slug], s.sites[slug]))
            else None
  {
    if boot == [] {
      CrashKeepsInvariant(s);
      CrashDamage(s, slug);
    } else {
      var front, last := boot[..|boot| - 1], boot[|boot| - 1];
      RecoveryKeepsEverySite(s, front, slug);
      var reached := Run(Next, Crashed(s), front);
      assert last in boot;
      RestartKeepsSite(reached, last, slug);
    }
  }

  /** Without jobs, neither a boot step nor another crash changes what a site is. */
  lemma RestartKeepsSite(s: State, event: Event, slug: string)
    requires Inv(s) && s.jobs == map[] && (event.Boot? || event.Crash?)
    ensures var after := Next(s, event);
      Inv(after) && after.jobs == map[] && SiteAt(after, slug) == SiteAt(s, slug)
  {
    if event.Boot? { BootWithoutJobs(s, event.decision, slug); } else { CrashWithoutJobs(s, slug); }
  }

  lemma BootWithoutJobs(s: State, decision: BootChoice, slug: string)
    requires Inv(s) && s.jobs == map[]
    ensures Inv(BootStep(s, decision)) && BootStep(s, decision).jobs == map[]
    ensures SiteAt(BootStep(s, decision), slug) == SiteAt(s, slug)
  {
    BootKeepsInvariant(s, decision);
    BootKeepsSites(s, decision, slug);
  }

  lemma CrashWithoutJobs(s: State, slug: string)
    requires Inv(s) && s.jobs == map[]
    ensures Inv(Crashed(s)) && SiteAt(Crashed(s), slug) == SiteAt(s, slug)
  {
    CrashKeepsInvariant(s);
    CrashShowsSites(s, slug);
  }

  /** A crash changes at most one site in the whole store: the target of the replacement that holds the lock. */
  lemma CrashHitsOneSite(s: State, a: string, b: string)
    requires Inv(s) && SiteAt(Crashed(s), a) != SiteAt(s, a) && SiteAt(Crashed(s), b) != SiteAt(s, b)
    ensures a == b
    ensures s.holder.Some? && s.holder.value in s.jobs && s.jobs[s.holder.value].task.Replace?
    ensures s.jobs[s.holder.value].task.slug == a
  {
    CrashDamage(s, a);
    CrashDamage(s, b);
  }

  // ---------- The swap and its inverse ----------

  /** A job about to swap, with everything the swap needs in place. */
  predicate CanSwap(s: State, id: JobId) {
    && id in s.jobs && s.jobs[id].task.Replace? && s.jobs[id].pc.Parking? && !s.jobs[id].content.stagingRemoved
    && s.jobs[id].content.staging in s.tmp && s.jobs[id].task.slug in s.sites
    && FreeFor(s.tmp, ParkedName(s.jobs[id].content)) && ParkedName(s.jobs[id].content) != s.jobs[id].content.staging
  }

  /** After the first rename, or again after the first rename back. */
  function HalfSwapped(s: State, id: JobId, pc: Pc, removed: bool): State
    requires CanSwap(s, id)
  {
    var job := s.jobs[id];
    s.(tmp := s.tmp[ParkedName(job.content) := s.sites[job.task.slug]],
       sites := s.sites - {job.task.slug},
       jobs := s.jobs[id := Job(job.task, pc, job.content.(stagingRemoved := removed))])
  }

  /** After both renames. */
  function FullySwapped(s: State, id: JobId, pc: Pc): State
    requires CanSwap(s, id)
  {
    var job := s.jobs[id];
    s.(tmp := s.tmp[ParkedName(job.content) := s.sites[job.task.slug]] - {job.content.staging},
       sites := s.sites[job.task.slug := s.tmp[job.content.staging]],
       jobs := s.jobs[id := Job(job.task, pc, job.content.(stagingRemoved := true))])
  }

  lemma ParkingHalfSwaps(s: State, id: JobId)
    requires CanSwap(s, id)
    ensures Step(s, id, Proceed) == HalfSwapped(s, id, Promoting(s.jobs[id].pc.now), false)
  {}

  lemma PromotingFullySwaps(s: State, id: JobId, now: int)
    requires CanSwap(s, id)
    ensures Step(HalfSwapped(s, id, Promoting(now), false), id, Proceed) == FullySwapped(s, id, Recording(now))
  {
    var slug := s.jobs[id].task.slug;
    assert (s.sites - {slug})[slug := s.tmp[s.jobs[id].content.staging]] == s.sites[slug := s.tmp[s.jobs[id].content.staging]];
  }

  lemma RefusedStaysSwapped(s: State, id: JobId, now: int)
    requires CanSwap(s, id)
    ensures Step(FullySwapped(s, id, Recording(now)), id, Fail) == FullySwapped(s, id, Withdrawing)
  {}

  lemma WithdrawingHalfSwaps(s: State, id: JobId)
    requires CanSwap(s, id)
    ensures Step(FullySwapped(s, id, Withdrawing), id, Proceed) == HalfSwapped(s, id, Restoring, true)
  {
    var swapped, half := FullySwapped(s, id, Withdrawing), HalfSwapped(s, id, Restoring, true);
    assert swapped.tmp[s.jobs[id].content.staging := s.tmp[s.jobs[id].content.staging]] == half.tmp;
    assert swapped.sites - {s.jobs[id].task.slug} == half.sites;
  }

  lemma RestoringUndoes(s: State, id: JobId)
    requires CanSwap(s, id) && ParkedName(s.jobs[id].content) !in s.tmp
    ensures Step(HalfSwapped(s, id, Restoring, true), id, Proceed) == s.(jobs := s.jobs[id := s.jobs[id].(pc := Unreserving)])
  {
    var job, half := s.jobs[id], HalfSwapped(s, id, Restoring, true);
    assert half.tmp - {ParkedName(job.content)} == s.tmp;
    assert half.sites[job.task.slug := s.sites[job.task.slug]] == s.sites;
    assert job.content.(stagingRemoved := true).(stagingRemoved := false) == job.content;
  }

  lemma RestoringErasesParked(s: State, id: JobId)
    requires CanSwap(s, id)
    ensures ParkedName(s.jobs[id].content) !in Step(HalfSwapped(s, id, Restoring, true), id, Proceed).tmp
  {}

  /** A swap whose row write is refused: park, promote, refuse, withdraw, restore. */
  function SwappedAndUndone(s: State, id: JobId): State {
    Step(Step(Step(Step(Step(s, id, Proceed), id, Proceed), id, Fail), id, Proceed), id, Proceed)
  }

  /**
   * `swap_back` after `swap_into` restores the whole store exactly when the parked name was unused: a
   * leftover with content refuses the swap, and an empty one is consumed by it.
   */
  lemma SwapBackUndoesSwap(s: State, id: JobId)
    requires Inv(s) && s.phase.Serving? && id in s.jobs && s.jobs[id].pc.Parking?
    ensures SwappedAndUndone(s, id) == s.(jobs := s.jobs[id := s.jobs[id].(pc := Unreserving)])
       <==> ParkedName(s.jobs[id].content) !in s.tmp
  {
    SwapIsPossible(s, id);
    if ParkedName(s.jobs[id].content) !in s.tmp {
      UndoneSwap(s, id);
    } else if FreeFor(s.tmp, ParkedName(s.jobs[id].content)) {
      EmptyLeftoverIsConsumed(s, id);
    } else {
      LeftoverRefusesSwap(s, id);
    }
  }

  lemma EmptyLeftoverIsConsumed(s: State, id: JobId)
    requires CanSwap(s, id) && ParkedName(s.jobs[id].content) in s.tmp
    ensures ParkedName(s.jobs[id].content) !in SwappedAndUndone(s, id).tmp
  {
    ParkingHalfSwaps(s, id);
    PromotingFullySwaps(s, id, s.jobs[id].pc.now);
    RefusedStaysSwapped(s, id, s.jobs[id].pc.now);
    WithdrawingHalfSwaps(s, id);
    RestoringErasesParked(s, id);
  }

  lemma LeftoverRefusesSwap(s: State, id: JobId)
    requires id in s.jobs && s.jobs[id].task.Replace? && s.jobs[id].pc.Parking? && Plain(s.jobs[id].content)
    requires !FreeFor(s.tmp, ParkedName(s.jobs[id].content)) && !s.jobs[id].content.stagingRemoved
    ensures id !in SwappedAndUndone(s, id).jobs
  {
    var job := s.jobs[id];
    assert Step(s, id, Proceed) == s.(jobs := s.jobs[id := job.(pc := Unreserving)]);
    RefusedSwapCleansUp(s.(jobs := s.jobs[id := job.(pc := Unreserving)]), id, job.(pc := Unreserving));
  }

  /** The remaining four calls are those of the cleanup. */
  lemma RefusedSwapCleansUp(s: State, id: JobId, job: Job)
    requires id in s.jobs && s.jobs[id] == job && job.task.Replace? && job.pc.Unreserving?
    requires Plain(job.content) && !job.content.stagingRemoved
    ensures id !in Step(Step(Step(Step(s, id, Proceed), id, Fail), id, Proceed), id, Proceed).jobs
  {
    var unstaging := s.(jobs := s.jobs[id := job.(pc := Unstaging)]);
    assert Step(s, id, Proceed) == unstaging;
    UnstagingFails(unstaging, id, job.(pc := Unstaging));
  }

  lemma UnstagingFails(s: State, id: JobId, job: Job)
    requires id in s.jobs && s.jobs[id] == job && job.task.Replace? && job.pc.Unstaging? && !job.content.stagingRemoved
    ensures id !in Step(Step(Step(s, id, Fail), id, Proceed), id, Proceed).jobs
  {
    assert Step(s, id, Fail) == s.(jobs := s.jobs[id := job.(pc := Releasing)]);
    assert id !in Step(Step(s, id, Fail), id, Proceed).jobs;
  }

  lemma UndoneSwap(s: State, id: JobId)
    requires CanSwap(s, id) && ParkedName(s.jobs[id].content) !in s.tmp
    ensures SwappedAndUndone(s, id) == s.(jobs := s.jobs[id := s.jobs[id].(pc := Unreserving)])
  {
    ParkingHalfSwaps(s, id);
    PromotingFullySwaps(s, id, s.jobs[id].pc.now);
    RefusedStaysSwapped(s, id, s.jobs[id].pc.now);
    WithdrawingHalfSwaps(s, id);
    RestoringUndoes(s, id);
  }

  /** A replacement that reaches the swap lacks nothing but a parked name that a rename accepts. */
  lemma SwapIsPossible(s: State, id: JobId)
    requires Inv(s) && s.phase.Serving? && id in s.jobs && s.jobs[id].pc.Parking?
    ensures CanSwap(s, id) <==> FreeFor(s.tmp, ParkedName(s.jobs[id].content))
    ensures s.jobs[id].task.Replace? && Plain(s.jobs[id].content) && !s.jobs[id].content.stagingRemoved
  {
    var job := s.jobs[id];
    assert Shape(job) && ValidTask(job.task) && Knows(s, job);
    ParkedNamesAreApart(job.content.staging, job.content.staging);
    assert SiteOk(s, job.task.slug);
  }

  // ---------- When staging is isolated ----------

  /**
   * Exclusive creation alone does not keep staging apart. A new directory keeps the names of all live jobs
   * disjoint exactly when no replacement has swapped its content in under that name and still awaits the
   * writing of its row.
   */
  lemma IsolationBreaksOnlyInTheWindow(s: State, id: JobId, name: string)
    requires Inv(s) && id in s.jobs && s.jobs[id].pc.Opening? && ValidSlug(name) && name !in s.tmp
    ensures Disjoint(Step(s, id, Pick(name))) <==> !Awaited(s, name)
  {
    assert Shape(s.jobs[id]);
    CreatesStaging(s, id, name);
    ClaimsOfNewcomer(s, Step(s, id, Pick(name)), id, name);
    UnclaimedIffNotAwaited(s, name);
  }

  /** The names of live jobs are disjoint throughout a run. */
  ghost predicate Isolating(events: seq<Event>) {
    forall n | 0 <= n <= |events| :: Disjoint(Reached(events[..n]))
  }

  /** Staging is isolated throughout a run exactly when no name was drawn inside that window. */
  lemma {:induction false} RunsIsolateExactlyOutsideTheWindow(events: seq<Event>)
    ensures Isolating(events) <==> FreshRun(events)
  {
    if FreshRun(events) { FreshRunsIsolate(events); }
    if Isolating(events) && events != [] {
      var front, last := events[..|events| - 1], events[|events| - 1];
      FrontIsolates(events);
      RunsIsolateExactlyOutsideTheWindow(front);
      assert events == front + [last];
      IsolatedDrawIsFresh(front, last);
      FreshRunAppend(front, last);
    }
  }

  lemma FreshRunsIsolate(events: seq<Event>)
    requires FreshRun(events)
    ensures Isolating(events)
  {
    forall n | 0 <= n <= |events| ensures Disjoint(Reached(events[..n])) {
      AdmissibleParts(Next, EMPTY_STORE, events, FreshName, n);
      RunKeepsInvariant(events[..n]);
    }
  }

  lemma FrontIsolates(events: seq<Event>)
    requires Isolating(events) && events != []
    ensures Isolating(events[..|events| - 1]) && Disjoint(Reached(events))
  {
    var front := events[..|events| - 1];
    forall n | 0 <= n <= |front| ensures Disjoint(Reached(front[..n])) {
      assert front[..n] == events[..n];
    }
    assert events[..|events|] == events;
  }

  lemma IsolatedDrawIsFresh(front: seq<Event>, last: Event)
    requires FreshRun(front) && Disjoint(Reached(front + [last]))
    ensures FreshName(Reached(front), last)
  {
    RunKeepsInvariant(front);
    RunAppend(Next, EMPTY_STORE, front, last);
    if Creates(Reached(front), last) {
      IsolationBreaksOnlyInTheWindow(Reached(front), last.id, last.choice.name);
    }
  }

  function NewStaging(job: Job, name: string): Job {
    Job(job.task, Writing(0), Ownership(name, false, None, false))
  }

  lemma CreatesStaging(s: State, id: JobId, name: string)
    requires id in s.jobs && Shape(s.jobs[id]) && s.jobs[id].pc.Opening? && ValidSlug(name) && name !in s.tmp
    ensures Step(s, id, Pick(name))
         == s.(tmp := s.tmp[name := EMPTY_DIRECTORY], jobs := s.jobs[id := NewStaging(s.jobs[id], name)])
  {}

  lemma ClaimsOfNewcomer(s: State, after: State, id: JobId, name: string)
    requires Disjoint(s) && id in s.jobs && s.jobs[id].pc.Opening? && Shape(s.jobs[id])
    requires after.jobs == s.jobs[id := NewStaging(s.jobs[id], name)]
    ensures Disjoint(after) <==> Unclaimed(s, name)
  {
    assert Claims(after.jobs[id]) == {name};
    assert Claims(s.jobs[id]) == {};
    if !Unclaimed(s, name) {
      var other :| other in s.jobs && name in Claims(s.jobs[other]);
      assert after.jobs[other] == s.jobs[other];
      assert !(Claims(after.jobs[id]) !! Claims(after.jobs[other]));
    }
  }

  lemma NonemptyStaging(files: seq<SiteFile>)
    requires files != [] && ValidNames(files) && WriteAll(files).Some?
    ensures WriteAll(files) != Some(EMPTY_DIRECTORY)
  {
    WriteAllCorrect(files);
    assert files[0] in files && Parts(files[0]) in WriteAll(files).value;
  }
}
