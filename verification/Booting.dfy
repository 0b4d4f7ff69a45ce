/** Boot reconciliation of rows against directories, and the expiry sweep. */
module Booting {
  import opened Calls
  import opened Deleting
  import opened Expiries
  import opened Histories
  import opened Invariants
  import opened Machine
  import opened Names
  import opened Protocol
  import opened Runs
  import opened Safety
  import opened Stores
  import opened Trees
  import opened Wrappers

  // ---------- Reconciliation ----------

  /** Every site with both a row and a directory is untouched. */
  ghost predicate Survive(before: State, after: State) {
    forall slug | slug in before.rows && slug in before.sites ::
      && slug in after.rows && after.rows[slug] == before.rows[slug]
      && slug in after.sites && after.sites[slug] == before.sites[slug]
  }

  /** Rows without content are gone, and nothing else about the rows has changed. */
  ghost predicate RowsReconciled(before: State, after: State) {
    && after.rows.Keys == before.rows.Keys * before.sites.Keys
    && forall slug <- after.rows :: after.rows[slug] == before.rows[slug]
  }

  /**
   * Boots the service after a crash. Without failing calls `tmp` ends up empty and both stores hold exactly
   * the slugs that both held before; a boot that reports an error has had one.
   */
  method Reconcile(store: Store) returns (ok: bool)
    requires AfterCrash(store.history) && store.Valid() && store.phase.ClearingTmp?
    modifies store
    ensures store.Valid() && Survive(old(store.World()), store.World())
    ensures store.Plan() == old(store.Plan()) && store.faults >= old(store.faults)
    ensures ok ==> store.phase.Serving? && RowsReconciled(old(store.World()), store.World()) && Sound(store.World())
    ensures store.faults == old(store.faults) ==> ok && store.tmp == map[] && store.sites.Keys == store.rows.Keys
  {
    ok := ClearTmp(store);
    if ok { ok := ReconcileSites(store); }
  }

  /** A call that reads something, and what is recorded if it cannot. */
  method Read(store: Store) returns (unread: bool)
    requires AfterCrash(store.history) && store.Valid() && !store.phase.Serving?
    modifies store`history, store`faults
    ensures store.Valid() && store.Plan() == old(store.Plan())
    ensures store.faults == old(store.faults) + if unread then 1 else 0
  {
    unread := store.Fault();
    if unread { store.RecordBoot(store.World(), Miss); }
  }

  /** The part of a boot that compares the two stores. */
  method ReconcileSites(store: Store) returns (ok: bool)
    requires AfterCrash(store.history) && store.Valid() && store.phase.ClearingSites?
    modifies store
    ensures store.Valid() && Survive(old(store.World()), store.World())
    ensures store.Plan() == old(store.Plan()) && store.faults >= old(store.faults)
    ensures store.tmp == old(store.tmp)
    ensures ok ==> store.phase.Serving? && RowsReconciled(old(store.World()), store.World()) && Sound(store.World())
    ensures store.faults == old(store.faults) ==> ok && store.sites.Keys == store.rows.Keys
  {
    var unread := Read(store);
    if unread { return false; }
    var rows := store.rows.Keys;
    unread := Read(store);
    if unread { return false; }
    var cleared, present := ClearSites(store, rows);
    SharedSlugsSurvive(old(store.World()), store.World());
    if !cleared { return false; }
    ok := DropRows(store, rows - present);
    SharedSlugsSurvive(old(store.World()), store.World());
    if ok { Serve(store); }
  }

  lemma SharedSlugsSurvive(before: State, after: State)
    requires OrphansRemoved(before.sites, after.sites, before.rows.Keys) && RowsDropped(before.rows, after.rows, after.sites)
    ensures Survive(before, after)
    ensures after.rows.Keys <= after.sites.Keys ==> RowsReconciled(before, after)
  {}

  /** Some rows without content are gone, and nothing else about the rows has changed. */
  ghost predicate RowsDropped(before: map<string, Row>, after: map<string, Row>, sites: map<string, Tree>) {
    && (forall slug | slug in after :: slug in before && after[slug] == before[slug])
    && (forall slug | slug in before && slug in sites :: slug in after)
  }

  /** Removes every entry of `tmp`; a failed removal is only logged, a failed listing ends the boot. */
  method ClearTmp(store: Store) returns (ok: bool)
    requires AfterCrash(store.history) && store.Valid() && store.phase.ClearingTmp?
    modifies store
    ensures store.Valid() && store.Plan() == old(store.Plan()) && store.faults >= old(store.faults)
    ensures if ok then store.phase.ClearingSites? else store.phase.ClearingTmp?
    ensures store.rows == old(store.rows) && store.sites == old(store.sites)
    ensures store.faults == old(store.faults) ==> ok && store.tmp == map[]
  {
    var staged := store.tmp.Keys;
    while staged != {}
      invariant store.Valid() && store.phase.ClearingTmp? && store.Plan() == old(store.Plan())
      invariant store.rows == old(store.rows) && store.sites == old(store.sites)
      invariant store.faults >= old(store.faults) && staged <= store.tmp.Keys
      invariant store.faults == old(store.faults) ==> store.tmp.Keys == staged
    {
      var unread := Read(store);
      if unread { return false; }
      var name :| name in staged;
      RemoveStaged(store, name);
      staged := staged - {name};
    }
    var unread := Read(store);
    if unread { return false; }
    ghost var before := store.World();
    store.phase := ClearingSites;
    store.RecordBoot(before, TmpDone);
    ok := true;
  }

  /** Removes one entry of `tmp`; an error may leave part of it. */
  method RemoveStaged(store: Store, name: string)
    requires AfterCrash(store.history) && store.Valid() && store.phase.ClearingTmp? && name in store.tmp
    modifies store`tmp, store`history, store`faults
    ensures store.Valid() && store.Plan() == old(store.Plan()) && store.faults >= old(store.faults)
    ensures store.tmp.Keys == old(store.tmp).Keys - (if store.faults == old(store.faults) then {name} else {})
  {
    ghost var before := store.World();
    var fault := store.Fault();
    if fault {
      var gone: set<Path> := *;
      store.tmp := store.tmp[name := store.tmp[name] - gone];
      store.RecordBoot(before, ShrinkTmp(name, store.tmp[name]));
    } else {
      store.tmp := store.tmp - {name};
      store.RecordBoot(before, RemoveTmp(name));
    }
  }

  /** Goes through the listing of `sites`: a name with a row is collected, any other directory is an orphan. */
  method ClearSites(store: Store, rows: set<string>) returns (ok: bool, present: set<string>)
    requires AfterCrash(store.history) && store.Valid() && store.phase.ClearingSites? && rows == store.rows.Keys
    modifies store
    ensures store.Valid() && store.Plan() == old(store.Plan()) && store.faults >= old(store.faults)
    ensures if ok then store.phase.DroppingRows? else store.phase.ClearingSites?
    ensures store.rows == old(store.rows) && store.tmp == old(store.tmp)
    ensures OrphansRemoved(old(store.sites), store.sites, rows)
    ensures ok ==> present == store.sites.Keys * rows
    ensures store.faults == old(store.faults) ==> ok && store.sites.Keys == present
  {
    ok, present := RemoveOrphans(store, rows);
    if ok { ok := EndListing(store); }
  }

  /** The loop over the listing of `sites`. */
  method RemoveOrphans(store: Store, rows: set<string>) returns (listed: bool, present: set<string>)
    requires AfterCrash(store.history) && store.Valid() && store.phase.ClearingSites? && rows == store.rows.Keys
    modifies store
    ensures store.Valid() && store.Plan() == old(store.Plan()) && store.phase == old(store.phase)
    ensures store.rows == old(store.rows) && store.tmp == old(store.tmp) && store.faults >= old(store.faults)
    ensures OrphansRemoved(old(store.sites), store.sites, rows)
    ensures listed ==> present == store.sites.Keys * rows
    ensures store.faults == old(store.faults) ==> listed && store.sites.Keys == present
  {
    listed, present := false, {};
    var content := store.sites.Keys;
    while content != {}
      invariant store.Valid() && store.phase == old(store.phase) && store.Plan() == old(store.Plan())
      invariant store.rows == old(store.rows) && store.tmp == old(store.tmp) && store.faults >= old(store.faults)
      invariant content <= store.sites.Keys && OrphansRemoved(old(store.sites), store.sites, rows)
      invariant forall name :: name in present <==> name in store.sites && name in rows && name !in content
      invariant store.faults == old(store.faults) ==> forall name | name in store.sites :: name in content || name in present
    {
      var unread := Read(store);
      if unread { return; }
      var name :| name in content;
      content := content - {name};
      if name in rows {
        present := present + {name};
      } else {
        RemoveOrphan(store, name);
      }
    }
    listed := true;
  }

  /** The listing of `sites` ends, unless the last read fails. */
  method EndListing(store: Store) returns (ok: bool)
    requires AfterCrash(store.history) && store.Valid() && store.phase.ClearingSites?
    modifies store`phase, store`history, store`faults
    ensures store.Valid() && store.Plan() == old(store.Plan())
    ensures if ok then store.phase.DroppingRows? else store.phase.ClearingSites?
    ensures store.faults == old(store.faults) + if ok then 0 else 1
  {
    var unread := Read(store);
    if unread { return false; }
    ghost var before := store.World();
    store.phase := DroppingRows;
    store.RecordBoot(before, SitesDone);
    ok := true;
  }

  /** Content with a row is as it was, and no other content has appeared. */
  ghost predicate OrphansRemoved(before: map<string, Tree>, after: map<string, Tree>, rows: set<string>) {
    && (forall name | name in after :: name in before)
    && (forall slug | slug in rows && slug in before :: slug in after && after[slug] == before[slug])
  }

  /** Removes one directory without a row; an error may leave part of it. */
  method RemoveOrphan(store: Store, name: string)
    requires AfterCrash(store.history) && store.Valid() && store.phase.ClearingSites? && name in store.sites && name !in store.rows
    modifies store`sites, store`history, store`faults
    ensures store.Valid() && store.Plan() == old(store.Plan()) && store.faults >= old(store.faults)
    ensures store.sites.Keys == old(store.sites).Keys - (if store.faults == old(store.faults) then {name} else {})
    ensures forall slug <- store.sites | slug != name :: store.sites[slug] == old(store.sites)[slug]
  {
    ghost var before := store.World();
    var fault := store.Fault();
    if fault {
      var gone: set<Path> := *;
      store.sites := store.sites[name := store.sites[name] - gone];
      store.RecordBoot(before, ShrinkSite(name, store.sites[name]));
    } else {
      store.sites := store.sites - {name};
      store.RecordBoot(before, RemoveSite(name));
    }
  }

  /** Deletes the rows without content; an error ends the boot. */
  method DropRows(store: Store, missing: set<string>) returns (ok: bool)
    requires AfterCrash(store.history) && store.Valid() && store.phase.DroppingRows? && missing == store.rows.Keys - store.sites.Keys
    modifies store
    ensures store.Valid() && store.phase.DroppingRows? && store.Plan() == old(store.Plan())
    ensures store.sites == old(store.sites) && store.tmp == old(store.tmp)
    ensures RowsDropped(old(store.rows), store.rows, store.sites)
    ensures ok ==> store.rows.Keys <= store.sites.Keys
    ensures store.faults == old(store.faults) + if ok then 0 else 1
  {
    var left := missing;
    while left != {}
      invariant store.Valid() && store.phase == old(store.phase) && store.faults == old(store.faults)
      invariant store.sites == old(store.sites) && store.tmp == old(store.tmp) && store.Plan() == old(store.Plan())
      invariant left == store.rows.Keys - store.sites.Keys
      invariant RowsDropped(old(store.rows), store.rows, store.sites)
    {
      var slug :| slug in left;
      var dropped := DropRowOf(store, slug);
      if !dropped { return false; }
      left := left - {slug};
    }
    forall slug <- store.rows ensures slug in store.sites {
      assert slug in store.sites || slug in left;
    }
    ok := true;
  }

  /** Deletes the row of a slug without content; an error may have deleted it or not. */
  method DropRowOf(store: Store, slug: string) returns (dropped: bool)
    requires AfterCrash(store.history) && store.Valid() && store.phase.DroppingRows? && slug in store.rows && slug !in store.sites
    modifies store
    ensures store.Valid() && store.phase == old(store.phase) && store.Plan() == old(store.Plan())
    ensures store.sites == old(store.sites) && store.tmp == old(store.tmp)
    ensures store.rows == old(store.rows) - {slug} || (!dropped && store.rows == old(store.rows))
    ensures store.faults == old(store.faults) + if dropped then 0 else 1
  {
    ghost var before := store.World();
    var result, applied := store.DeleteRow(slug);
    dropped := result.Done?;
    if applied { store.RecordBoot(before, DropRow(slug)); }
    if !dropped { store.RecordBoot(store.World(), Miss); }
  }

  /** Opens the service once the rows agree with the content. */
  method Serve(store: Store)
    requires AfterCrash(store.history) && store.Valid() && store.phase.DroppingRows? && store.rows.Keys <= store.sites.Keys
    modifies store`phase, store`history, store`faults
    ensures store.Valid() && store.phase.Serving? && Sound(store.World())
    ensures store.Plan() == old(store.Plan()) && store.faults == old(store.faults)
  {
    ghost var before := store.World();
    store.phase := Serving;
    store.RecordBoot(before, RowsDone);
    BootHoldsNoLock(before);
    ReachableIsSound(store.World());
  }

  lemma BootHoldsNoLock(s: State)
    requires Reachable(s) && !s.phase.Serving?
    ensures s.holder.None?
  {
    ReachableIsInvariant(s);
  }

  // ---------- The expiry sweep ----------

  /** What a sweep that reads the clock now finds due. */
  function Expired(rows: map<string, Row>, now: int): set<string> {
    set slug | slug in rows && IsExpired(rows[slug], now)
  }

  /** One deletion of a sweep: its history, its outcome, and the store as it left it. */
  datatype Swept = Swept(
    slug: string, outcome: Result<DeleteOutcome, Failure>,
    history: History, pending: seq<Event>, faults: nat, draws: seq<Draw>, after: State)

  /** Where a deletion found the others: after what had happened, with what they were still to do. */
  function Before(log: seq<Swept>, i: nat, trace: seq<Event>, pending: seq<Event>): (seq<Event>, seq<Event>)
    requires i <= |log|
  {
    if i == 0 then (trace, pending) else (log[i - 1].history.trace, log[i - 1].pending)
  }

  /** A deletion that took place from there on, by a new job, and what it reported. */
  ghost predicate TookPlace(entry: Swept, found: (seq<Event>, seq<Event>)) {
    && entry.history.me !in Reached(found.0).jobs
    && CallOf(entry.history, entry.history.me, Delete(entry.slug), found.0, found.1)
    && Told(entry.history, entry.pending, entry.faults, entry.draws, entry.after)
    && DeletionReported(entry.history, entry.after, entry.pending, entry.slug, entry.outcome, entry.faults)
  }

  /** Deletions one right after the other, one for each slug of the set. */
  ghost predicate InTurn(log: seq<Swept>, slugs: set<string>, trace: seq<Event>, pending: seq<Event>) {
    if log == [] then slugs == {}
    else
      var front, last := log[..|log| - 1], log[|log| - 1];
      && last.slug in slugs && TookPlace(last, Before(front, |front|, trace, pending))
      && InTurn(front, slugs - {last.slug}, trace, pending)
  }

  /** The log ends with the store as it is. */
  ghost predicate LeadsTo(log: seq<Swept>, trace: seq<Event>, pending: seq<Event>, store: Store)
    reads store
  {
    && Before(log, |log|, trace, pending) == (store.history.trace, store.pending)
    && (log != [] ==> log[|log| - 1].after == store.World())
  }

  /**
   * Whether a sweep keeps to sites that are due: a site that it finds in place when a deletion takes the
   * lock is due at the time of the snapshot exactly unless the last publication or save that has written
   * its expiry since wrote a later one or none, whatever else has happened to the slug. Due or not, without
   * failing calls the site is then gone; and nothing is deleted if there is no site any more.
   */
  ghost predicate DeletedWhenDue(entry: Swept, snapshot: seq<Event>, now: int) {
    entry.history.locked.Some? ==>
      var t := entry.history.locked.value;
      && snapshot <= t
      && (entry.slug in Reached(t).rows ==>
            (IsExpired(Reached(t).rows[entry.slug], now) <==> !WrittenLater(snapshot, t[|snapshot|..], entry.slug, now)))
      && (entry.faults == 0 ==> DeletedFaultlessly(Reached(t), entry.after, entry.slug, entry.outcome))
  }

  /** Without failing calls a deletion removes the site, or there is none. */
  ghost predicate DeletedFaultlessly(before: State, after: State, slug: string, outcome: Result<DeleteOutcome, Failure>) {
    if slug in before.rows then outcome == Ok(Deleted) && slug !in after.rows && slug !in after.sites
    else outcome == Ok(NotFound) && Unchanged(before, after)
  }

  lemma SweptWhenDue(entry: Swept, found: (seq<Event>, seq<Event>), snapshot: seq<Event>, now: int)
    requires TookPlace(entry, found) && snapshot <= found.0 && entry.slug in Expired(Reached(snapshot).rows, now)
    ensures DeletedWhenDue(entry, snapshot, now) && snapshot <= entry.history.trace
  {
    var h := entry.history;
    assert snapshot <= found.0 <= h.start;
    SnapshotIsBefore(h, entry.pending, entry.faults, entry.draws, entry.after, snapshot);
    if h.locked.Some? {
      OutcomeIsFaultless(h, entry.after, entry.pending, entry.slug, entry.outcome, entry.faults);
      LockedWhenDue(snapshot, h.locked.value, entry.slug, now);
    }
  }

  lemma OutcomeIsFaultless(h: History, after: State, pending: seq<Event>, slug: string,
                           outcome: Result<DeleteOutcome, Failure>, faults: nat)
    requires DeletionReported(h, after, pending, slug, outcome, faults) && h.locked.Some?
    ensures faults == 0 ==> DeletedFaultlessly(Reached(h.locked.value), after, slug, outcome)
  {}

  lemma LockedWhenDue(snapshot: seq<Event>, t: seq<Event>, slug: string, now: int)
    requires snapshot <= t && FreshRun(t) && slug in Expired(Reached(snapshot).rows, now)
    ensures slug in Reached(t).rows ==>
      (IsExpired(Reached(t).rows[slug], now) <==> !WrittenLater(snapshot, t[|snapshot|..], slug, now))
  {
    assert t == snapshot + t[|snapshot|..];
    if slug in Reached(t).rows { DueUnlessWrittenLater(snapshot, t[|snapshot|..], slug, now); }
  }

  lemma SnapshotIsBefore(h: History, pending: seq<Event>, faults: nat, draws: seq<Draw>, s: State, snapshot: seq<Event>)
    requires Told(h, pending, faults, draws, s) && snapshot <= h.start
    ensures snapshot <= h.trace
    ensures h.locked.Some? ==> snapshot <= h.locked.value && FreshRun(h.locked.value)
  {
    Recall(h, pending, faults, draws, s);
    if h.locked.Some? {
      assert h.locked.value == h.trace[..|h.locked.value|];
      AdmissibleParts(Next, EMPTY_STORE, h.trace, FreshName, |h.locked.value|);
    }
  }

  lemma {:induction false} SweepKeepsToDueSites(log: seq<Swept>, slugs: set<string>, trace: seq<Event>, pending: seq<Event>, now: int)
    requires InTurn(log, slugs, trace, pending) && slugs <= Expired(Reached(trace).rows, now)
    ensures forall entry <- log :: DeletedWhenDue(entry, trace, now)
    ensures trace <= Before(log, |log|, trace, pending).0
  {
    if log != [] {
      var front, last := log[..|log| - 1], log[|log| - 1];
      SweepKeepsToDueSites(front, slugs - {last.slug}, trace, pending, now);
      SweptWhenDue(last, Before(front, |front|, trace, pending), trace, now);
      assert log == front + [last];
    }
  }

  /**
   * Deletes what was due when the sweep read the clock: the deletions follow one another with
   * only the other jobs between their calls, each slug has exactly one, and each reports what it did. Slugs
   * are left only when a deletion has not come back. The expiry is not looked at again.
   */
  method Sweep(store: Store) returns (now: Option<int>, left: set<string>, ghost log: seq<Swept>)
    requires store.Valid() && store.phase.Serving?
    modifies store
    ensures store.Valid() && store.phase.Serving?
    ensures now.None? ==> log == [] && store.World() == old(store.World())
    ensures now.Some? ==>
      && left <= Expired(old(store.rows), now.value)
      && InTurn(log, Expired(old(store.rows), now.value) - left, old(store.history.trace), old(store.pending))
      && BrokenOff(log, left)
      && (forall entry <- log :: DeletedWhenDue(entry, old(store.history.trace), now.value))
    ensures LeadsTo(log, old(store.history.trace), old(store.pending), store)
  {
    left, log := {}, [];
    now := store.Now();
    if now.None? { return; }
    var unread := store.Fault();
    if unread { return None, {}, []; }
    var expired := Expired(store.rows, now.value);
    RowSlugsAreValid(store.World());
    Recall(store.history, store.pending, store.faults, store.draws, store.World());
    left, log := DeleteAll(store, expired);
    SweepKeepsToDueSites(log, expired - left, old(store.history.trace), old(store.pending), now.value);
  }

  /** Slugs are left exactly if the last deletion has not come back, and every other one has. */
  ghost predicate BrokenOff(log: seq<Swept>, left: set<string>) {
    && (forall i | 0 <= i < |log| :: log[i].outcome == Err(Unfinished) ==> i == |log| - 1)
    && (left != {} ==> log != [] && log[|log| - 1].outcome == Err(Unfinished))
  }

  /** Deletes one slug after the other, in whatever order. */
  method DeleteAll(store: Store, expired: set<string>) returns (left: set<string>, ghost log: seq<Swept>)
    requires store.Valid() && store.phase.Serving? && forall slug <- expired :: ValidSlug(slug)
    modifies store
    ensures store.Valid() && store.phase.Serving? && left <= expired && BrokenOff(log, left)
    ensures InTurn(log, expired - left, old(store.history.trace), old(store.pending))
    ensures LeadsTo(log, old(store.history.trace), old(store.pending), store)
  {
    left, log := expired, [];
    while left != {}
      invariant store.Valid() && store.phase.Serving? && left <= expired
      invariant InTurn(log, expired - left, old(store.history.trace), old(store.pending))
      invariant LeadsTo(log, old(store.history.trace), old(store.pending), store)
      invariant forall entry <- log :: entry.outcome != Err(Unfinished)
    {
      var slug :| slug in left;
      var outcome; ghost var entry;
      outcome, entry := DeleteExpired(store, slug);
      NextInTurn(log, expired - left, entry, old(store.history.trace), old(store.pending));
      assert expired - (left - {slug}) == (expired - left) + {slug};
      log, left := log + [entry], left - {slug};
      if outcome == Err(Unfinished) { return; }
    }
  }

  /** One deletion of the sweep, and what is to be said of it. */
  method DeleteExpired(store: Store, slug: string) returns (outcome: Result<DeleteOutcome, Failure>, ghost entry: Swept)
    requires store.Valid() && store.phase.Serving? && ValidSlug(slug)
    modifies store
    ensures store.Valid() && store.phase.Serving?
    ensures entry.slug == slug && entry.outcome == outcome && TookPlace(entry, (old(store.history.trace), old(store.pending)))
    ensures (entry.history.trace, entry.pending, entry.after) == (store.history.trace, store.pending, store.World())
  {
    var id := UnusedId(store);
    Recall(store.history, store.pending, store.faults, store.draws, store.World());
    outcome := DeleteSite(store, id, slug);
    entry := Swept(slug, outcome, store.history, store.pending, store.faults, store.draws, store.World());
  }

  lemma RowSlugsAreValid(s: State)
    requires Reachable(s)
    ensures forall slug <- s.rows :: ValidSlug(slug)
  {
    ReachableIsInvariant(s);
    forall slug <- s.rows ensures ValidSlug(slug) { assert SiteOk(s, slug); }
  }

  lemma NextInTurn(log: seq<Swept>, slugs: set<string>, next: Swept, trace: seq<Event>, pending: seq<Event>)
    requires InTurn(log, slugs, trace, pending) && next.slug !in slugs
    requires TookPlace(next, Before(log, |log|, trace, pending))
    ensures InTurn(log + [next], slugs + {next.slug}, trace, pending)
  {
    assert (log + [next])[..|log|] == log;
    assert (slugs + {next.slug}) - {next.slug} == slugs;
  }

  /** An identity for a new job. */
  method UnusedId(store: Store) returns (id: JobId)
    ensures id !in store.jobs
  {
    id := 0;
    var left := store.jobs.Keys;
    while left != {}
      invariant left <= store.jobs.Keys
      invariant forall other | other in store.jobs && other !in left :: other < id
    {
      var other :| other in left;
      left := left - {other};
      if id <= other { id := other + 1; }
    }
  }
}
