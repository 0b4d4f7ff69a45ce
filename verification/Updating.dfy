/** Saving settings against the current row and the current content. */
module Updating {
  import opened Calls
  import opened Histories
  import opened Invariants
  import opened Machine
  import opened Names
  import opened Protocol
  import opened Safety
  import opened SiteSettings
  import opened Steps
  import opened Stores
  import opened Wrappers

  /** The row is saved column by column, and nothing else changes. */
  ghost predicate Saved(before: State, after: State, slug: string, settings: Settings, now: int) {
    && slug in before.rows && AccessAllowed(before.rows[slug], settings) && EntryExists(before.sites, slug, settings)
    && slug in after.rows && IsSave(before.rows[slug], after.rows[slug], settings, now)
    && after.rows == before.rows[slug := after.rows[slug]]
    && after.sites == before.sites
  }

  /** A save is reported only when it happened; without faults the state alone decides the outcome. */
  ghost predicate SaveOutcome(before: State, after: State, slug: string, settings: Settings, clock: Option<int>,
                              outcome: Result<Option<Row>, Failure>, faulted: bool)
  {
    match outcome
    case Ok(None) => slug !in before.rows && Unchanged(before, after)
    case Ok(Some(row)) =>
      clock.Some? && Saved(before, after, slug, settings, clock.value) && row == after.rows[slug]
    case Err(Rejected(PasswordError)) =>
      slug in before.rows && !AccessAllowed(before.rows[slug], settings) && Unchanged(before, after)
    case Err(Rejected(SettingsEntryError)) =>
      && slug in before.rows && AccessAllowed(before.rows[slug], settings)
      && !EntryExists(before.sites, slug, settings) && Unchanged(before, after)
    case Err(Operational) =>
      faulted && (Unchanged(before, after) || (clock.Some? && Saved(before, after, slug, settings, clock.value)))
    case Err(_) => false
  }

  /** Saves the settings of a site, and returns the row that was written. */
  method UpdateSite(store: Store, id: JobId, slug: string, settings: Settings)
    returns (outcome: Result<Option<Row>, Failure>)
    requires store.Valid() && store.phase.Serving? && id !in store.jobs && ValidTask(Update(slug, settings))
    modifies store
    ensures store.Valid() && store.phase.Serving?
    ensures CallOf(store.history, id, Update(slug, settings), old(store.history.trace), old(store.pending))
    ensures if outcome == Err(Unfinished) then StillWaiting(store.World(), store.pending, id, Update(slug, settings))
            else id !in store.jobs
    ensures store.history.locked.None? ==> KeptOut(store.history) && outcome == Err(Unfinished)
    ensures store.history.locked.Some? ==>
      && Sound(store.World())
      && SaveOutcome(Reached(store.history.locked.value), store.World(), slug, settings, store.history.clock, outcome, store.faults > 0)
  {
    var acquired := LockFor(store, id, Update(slug, settings));
    if !acquired { return Err(Unfinished); }
    outcome := UpdateLocked(store, id, slug, settings);
  }

  /** The part of a save under the lock, and the row as it is read back. */
  method UpdateLocked(store: Store, id: JobId, slug: string, settings: Settings)
    returns (outcome: Result<Option<Row>, Failure>)
    requires store.Valid() && store.Holds(id, Update(slug, settings), Finding, NO_CONTENT) && store.history.clock.None?
    modifies store
    ensures store.Valid() && store.phase.Serving? && id !in store.jobs && Sound(store.World())
    ensures store.Plan().(clock := None) == old(store.Plan()) && store.faults >= old(store.faults)
    ensures SaveOutcome(old(store.World()), store.World(), slug, settings, store.history.clock, outcome, store.faults > old(store.faults))
  {
    outcome := CheckAndSave(store, id, slug, settings);
    store.Release(id);
  }

  method CheckAndSave(store: Store, id: JobId, slug: string, settings: Settings)
    returns (outcome: Result<Option<Row>, Failure>)
    requires store.Valid() && store.Holds(id, Update(slug, settings), Finding, NO_CONTENT) && store.history.clock.None?
    modifies store
    ensures store.Valid() && store.Holds(id, Update(slug, settings), Releasing, NO_CONTENT)
    ensures store.Plan().(clock := None) == old(store.Plan()) && store.faults >= old(store.faults)
    ensures SaveOutcome(old(store.World()), store.World(), slug, settings, store.history.clock, outcome, store.faults > old(store.faults))
  {
    var found := FindRow(store, id, Update(slug, settings), NO_CONTENT);
    if !found.Done? { return if found.Refused? then Ok(None) else Err(Operational); }
    var rejected := CheckSettings(store, id, slug, settings);
    if rejected.Some? { return Err(rejected.value); }
    outcome := DateAndSave(store, id, slug, settings);
  }

  /** The save itself, for settings that have passed both checks. */
  method DateAndSave(store: Store, id: JobId, slug: string, settings: Settings)
    returns (outcome: Result<Option<Row>, Failure>)
    requires store.Valid() && store.Holds(id, Update(slug, settings), Dating, NO_CONTENT) && store.history.clock.None?
    requires slug in store.rows && AccessAllowed(store.rows[slug], settings) && EntryExists(store.sites, slug, settings)
    modifies store
    ensures store.Valid() && store.Holds(id, Update(slug, settings), Releasing, NO_CONTENT)
    ensures store.Plan().(clock := None) == old(store.Plan()) && store.faults >= old(store.faults)
    ensures outcome != Ok(None)
    ensures SaveOutcome(old(store.World()), store.World(), slug, settings, store.history.clock, outcome, store.faults > old(store.faults))
  {
    var clock := UnixNow(store, id, Update(slug, settings), NO_CONTENT);
    if clock.None? { return Err(Operational); }
    RowsAreChecked(store.World(), slug);
    SavedColumns(store.rows[slug], settings, clock.value);
    outcome := SaveRow(store, id, slug, settings, clock.value);
  }

  lemma RowsAreChecked(s: State, slug: string)
    requires Reachable(s) && slug in s.rows
    ensures CheckConstraint(s.rows[slug])
  {
    ReachableIsInvariant(s);
    assert SiteOk(s, slug);
  }

  /** Checks the access change against the current row and the entry against the current content. */
  method CheckSettings(store: Store, id: JobId, slug: string, settings: Settings) returns (rejected: Option<Failure>)
    requires store.Valid() && store.Holds(id, Update(slug, settings), Checking, NO_CONTENT) && slug in store.rows
    modifies store
    ensures store.Plan() == old(store.Plan())
    ensures store.Valid() && store.rows == old(store.rows) && store.sites == old(store.sites)
    ensures store.Holds(id, Update(slug, settings), if rejected.None? then Dating else Releasing, NO_CONTENT)
    ensures store.faults >= old(store.faults)
    ensures match rejected
            case None => AccessAllowed(store.rows[slug], settings) && EntryExists(store.sites, slug, settings)
            case Some(Rejected(PasswordError)) => !AccessAllowed(store.rows[slug], settings)
            case Some(Rejected(SettingsEntryError)) =>
              AccessAllowed(store.rows[slug], settings) && !EntryExists(store.sites, slug, settings)
            case Some(failure) => failure == Operational && store.faults > old(store.faults)
  {
    store.Interfere(id);
    if !AccessAllowed(store.rows[slug], settings) {
      Checked(store, id, slug, settings, false);
      return Some(Rejected(PasswordError));
    }
    var fault := store.Fault();
    if fault {
      Checked(store, id, slug, settings, true);
      return Some(Operational);
    }
    Checked(store, id, slug, settings, false);
    rejected := if EntryExists(store.sites, slug, settings) then None else Some(Rejected(SettingsEntryError));
  }

  /** The job goes on from its checks. */
  method Checked(store: Store, id: JobId, slug: string, settings: Settings, fault: bool)
    requires store.Valid() && store.Holds(id, Update(slug, settings), Checking, NO_CONTENT) && slug in store.rows
    modifies store
    ensures store.Plan() == old(store.Plan()) && store.Valid() && store.rows == old(store.rows) && store.sites == old(store.sites)
    ensures store.Holds(id, Update(slug, settings), if !fault && Passes(store.World(), slug, settings) then Dating else Releasing,
                        NO_CONTENT)
    ensures store.faults == old(store.faults) + if fault then 1 else 0
  {
    CheckTakes(store.World(), id);
    if fault {
      store.Conclude(id, Some(Job(Update(slug, settings), Releasing, NO_CONTENT)), store.World(), Fail);
    } else {
      var pc := if Passes(store.World(), slug, settings) then Dating else Releasing;
      store.Conclude(id, Some(Job(Update(slug, settings), pc, NO_CONTENT)), store.World(), Proceed);
    }
  }

  /** The statement that writes the row and the query that reads it back; an error may hide an applied write. */
  method SaveRow(store: Store, id: JobId, slug: string, settings: Settings, now: int)
    returns (saved: Result<Option<Row>, Failure>)
    requires store.Valid() && store.Holds(id, Update(slug, settings), Saving(now), NO_CONTENT) && slug in store.rows
    modifies store
    ensures store.Valid() && store.Holds(id, Update(slug, settings), Releasing, NO_CONTENT)
    ensures store.Plan() == old(store.Plan()) && store.sites == old(store.sites)
    ensures store.rows == old(store.rows)[slug := UpdatedRow(old(store.rows)[slug], settings, now)]
            || (saved.Err? && store.rows == old(store.rows))
    ensures saved == Err(Operational) || saved == Ok(Some(UpdatedRow(old(store.rows)[slug], settings, now)))
    ensures store.faults == old(store.faults) + if saved.Ok? then 0 else 1
  {
    store.Interfere(id);
    ghost var before := store.World();
    var result, applied := store.UpdateRow(slug, settings, now);
    var unread := store.Fault();
    var done := result.Done? && !unread;
    SaveTakes(before, id, applied);
    store.Conclude(id, Some(Job(Update(slug, settings), Releasing, NO_CONTENT)), before,
                   if done then Proceed else Unsure(applied));
    saved := if done then Ok(Some(store.rows[slug])) else Err(Operational);
  }
}
