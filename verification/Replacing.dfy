/** Replacement of a site's content in place: swap, record, and undo the swap if it cannot be recorded. */
module Replacing {
  import opened Calls
  import opened Contents
  import opened Histories
  import opened Invariants
  import opened Machine
  import opened NewSites
  import opened Protocol
  import opened Safety
  import opened Steps
  import opened Stores
  import opened Trees
  import opened Wrappers

  /** Exactly the new file set, and only entry, counts and update time of the row changed. */
  ghost predicate Replaced(before: State, after: State, slug: string, input: NewSite, now: int) {
    && slug in before.rows && WriteAll(input.files).Some?
    && slug in after.rows && IsReplacement(before.rows[slug], after.rows[slug], input, now)
    && after.rows == before.rows[slug := after.rows[slug]]
    && after.sites == before.sites[slug := WriteAll(input.files).value]
  }

  /** What the swap has come to when the job begins to clean up. */
  ghost predicate SwapOutcome(before: State, after: State, slug: string, input: NewSite, clock: Option<int>,
                              outcome: Result<bool, Failure>, faulted: bool, obstructed: bool)
  {
    match outcome
    case Ok(false) => slug !in before.rows && Unchanged(before, after)
    case Ok(true) => !obstructed && clock.Some? && Replaced(before, after, slug, input, clock.value)
    case Err(Operational) =>
      Unchanged(before, after) && (faulted || (obstructed && slug in before.rows))
    case Err(_) => false
  }

  /**
   * Replacement is all or nothing: without failing calls it fails exactly when there is a row and its
   * parked name is obstructed when the job takes the lock, and an error before the cleanup leaves row and
   * content as they were. A failing cleanup reports an error whatever came before.
   */
  ghost predicate ReplacementOutcome(before: State, after: State, slug: string, input: NewSite,
                                     outcome: Result<bool, Failure>, h: History, faults: nat)
  {
    match outcome
    case Ok(false) => !Untidy(h, faults) && slug !in before.rows && Unchanged(before, after)
    case Ok(true) =>
      && !Untidy(h, faults) && !Obstructed(before, h.me)
      && h.clock.Some? && Replaced(before, after, slug, input, h.clock.value)
    case Err(Operational) =>
      && (faults > 0 || (Obstructed(before, h.me) && slug in before.rows))
      && (|| Unchanged(before, after)
          || (Untidy(h, faults) && h.clock.Some? && Replaced(before, after, slug, input, h.clock.value)))
    case Err(_) => false
  }

  /**
   * Replaces the content of a site. A failed replacement that cleaned up without errors has also removed
   * the staging directory.
   */
  method ReplaceSite(store: Store, id: JobId, slug: string, input: NewSite) returns (outcome: Result<bool, Failure>)
    requires store.Valid() && store.phase.Serving? && id !in store.jobs && ValidTask(Replace(slug, input))
    modifies store
    ensures store.Valid() && store.phase.Serving?
    ensures CallOf(store.history, id, Replace(slug, input), old(store.history.trace), old(store.pending))
    ensures if outcome == Err(Unfinished) then StillWaiting(store.World(), store.pending, id, Replace(slug, input))
            else id !in store.jobs
    ensures store.history.locked.None? ==>
      && KeptOut(store.history)
      && (outcome == Err(Unfinished)
          || (outcome == Err(Operational) && StagingEnded(input, store.history, store.faults, store.draws)))
    ensures store.history.locked.Some? ==>
      && PrefixFree(input.files) && Sound(store.World())
      && ReplacementOutcome(Reached(store.history.locked.value), store.World(), slug, input, outcome, store.history, store.faults)
      && (store.faults == 0 ==>
            (outcome.Err? <==> var s := Reached(store.history.locked.value); slug in s.rows && Obstructed(s, id)))
      && store.history.closing.Some?
      && (Untidy(store.history, store.faults) || (Tidied(store.history) && (outcome.Err? ==> StagingIsGone(store.history))))
  {
    var staged := StageAndLock(store, id, Replace(slug, input));
    if staged.Err? { return Err(staged.error); }
    outcome := ReplaceLocked(store, id, slug, input, staged.value);
  }

  /** The part of a replacement under the lock. */
  method ReplaceLocked(store: Store, id: JobId, slug: string, input: NewSite, content: Content)
    returns (outcome: Result<bool, Failure>)
    requires store.Valid() && store.Holds(id, Replace(slug, input), Finding, content.Record()) && content.Fresh()
    requires store.faults == 0 && store.history.clock.None? && store.history.closing.None? && store.history.closed.None?
    modifies store, content
    ensures store.Valid() && store.phase.Serving? && id !in store.jobs && Sound(store.World())
    ensures store.Plan().(clock := None, closing := None, closed := None) == old(store.Plan())
    ensures ReplacementOutcome(old(store.World()), store.World(), slug, input, outcome, store.history, store.faults)
    ensures store.history.closing.Some?
    ensures !Untidy(store.history, store.faults) ==>
      Tidied(store.history) && (outcome.Err? ==> StagingIsGone(store.history))
  {
    outcome := Swap(store, id, slug, input, content);
    var clean := content.Cleanup(store, id, Replace(slug, input));
    store.Release(id);
    if !clean { outcome := Err(Operational); }
  }

  /** Everything between taking the lock and cleaning up; `false` says that the site does not exist. */
  method Swap(store: Store, id: JobId, slug: string, input: NewSite, content: Content)
    returns (outcome: Result<bool, Failure>)
    requires store.Valid() && store.Holds(id, Replace(slug, input), Finding, content.Record()) && content.Fresh()
    requires store.history.clock.None?
    modifies store, content`stagingRemoved
    ensures store.Valid() && store.Holds(id, Replace(slug, input), Unreserving, content.Record())
    ensures store.Plan().(clock := None) == old(store.Plan()) && store.draws == old(store.draws)
    ensures content.installedDirectory.None? && store.faults >= old(store.faults)
    ensures SwapOutcome(old(store.World()), store.World(), slug, input, store.history.clock, outcome,
                        store.faults > old(store.faults), !FreeFor(old(store.tmp), ParkedName(content.Record())))
    ensures content.stagingRemoved <==> outcome == Ok(true)
  {
    var found := FindRow(store, id, Replace(slug, input), content.Record());
    if found.Refused? { return Ok(false); }
    if found.Faulted? { return Err(Operational); }
    var clock := UnixNow(store, id, Replace(slug, input), content.Record());
    if clock.None? { return Err(Operational); }
    outcome := SwapAndRecord(store, id, slug, input, content, clock.value);
  }

  method SwapAndRecord(store: Store, id: JobId, slug: string, input: NewSite, content: Content, now: int)
    returns (outcome: Result<bool, Failure>)
    requires store.Valid() && store.Holds(id, Replace(slug, input), Parking(now), content.Record()) && content.Fresh()
    requires slug in store.rows
    modifies store, content`stagingRemoved
    ensures store.Valid() && store.Holds(id, Replace(slug, input), Unreserving, content.Record())
    ensures store.Plan() == old(store.Plan()) && store.draws == old(store.draws)
    ensures content.installedDirectory.None? && store.faults >= old(store.faults)
    ensures SwapOutcome(old(store.World()), store.World(), slug, input, Some(now), outcome,
                        store.faults > old(store.faults), !FreeFor(old(store.tmp), ParkedName(content.Record())))
    ensures outcome != Ok(false) && (content.stagingRemoved <==> outcome == Ok(true))
  {
    var swapped := content.SwapInto(store, id, Replace(slug, input), now);
    if !swapped { return Err(Operational); }
    outcome := RecordOrUndo(store, id, slug, input, content, now);
    ParkedAndBack(old(store.sites), slug);
    ReplacedColumns(old(store.rows)[slug], input, now);
  }

  /** Records the swap and drops the parked content, or takes the swap back. */
  method RecordOrUndo(store: Store, id: JobId, slug: string, input: NewSite, content: Content, now: int)
    returns (outcome: Result<bool, Failure>)
    requires store.Valid() && store.Holds(id, Replace(slug, input), Recording(now), content.Record())
    requires slug in store.rows && ParkedName(content.Record()) in store.tmp
    modifies store, content`stagingRemoved
    ensures store.Valid() && store.Holds(id, Replace(slug, input), Unreserving, content.Record())
    ensures store.Plan() == old(store.Plan()) && store.draws == old(store.draws)
    ensures outcome == Ok(true) || outcome == Err(Operational)
    ensures outcome.Ok? ==>
      && store.sites == old(store.sites) && content.stagingRemoved == old(content.stagingRemoved)
      && store.rows == old(store.rows)[slug := ReplacedRow(old(store.rows)[slug], input, now)]
    ensures outcome.Err? ==>
      && store.rows == old(store.rows) && !content.stagingRemoved && store.faults > old(store.faults)
      && store.sites == old(store.sites)[slug := old(store.tmp)[ParkedName(content.Record())]]
    ensures store.faults >= old(store.faults)
  {
    var recorded := RecordReplacement(store, id, slug, input, content, now);
    if recorded {
      var _ := store.RemoveTmpTree(id);
      outcome := Ok(true);
    } else {
      content.SwapBack(store, id, Replace(slug, input));
      outcome := Err(Operational);
    }
  }

  /** The UPDATE after the swap, which either records it or changes nothing. */
  method RecordReplacement(store: Store, id: JobId, slug: string, input: NewSite, content: Content, now: int)
    returns (recorded: bool)
    requires store.Valid() && store.Holds(id, Replace(slug, input), Recording(now), content.Record())
    requires slug in store.rows && ParkedName(content.Record()) in store.tmp
    modifies store
    ensures store.Valid() && store.sites == old(store.sites)
    ensures store.Holds(id, Replace(slug, input), if recorded then DroppingParked else Withdrawing, content.Record())
    ensures store.rows == if recorded then old(store.rows)[slug := ReplacedRow(old(store.rows)[slug], input, now)] else old(store.rows)
    ensures ParkedName(content.Record()) in store.tmp
    ensures store.tmp[ParkedName(content.Record())] == old(store.tmp)[ParkedName(content.Record())]
    ensures store.Plan() == old(store.Plan()) && store.draws == old(store.draws)
    ensures store.faults == old(store.faults) + if recorded then 0 else 1
  {
    assert ParkedName(content.Record()) in Claims(store.jobs[id]);
    store.Interfere(id);
    recorded := RecordNow(store, id, slug, input, content.Record(), now);
  }

  /** The same once other jobs have had their turn. */
  method RecordNow(store: Store, id: JobId, slug: string, input: NewSite, content: Ownership, now: int)
    returns (recorded: bool)
    requires store.Valid() && store.Holds(id, Replace(slug, input), Recording(now), content) && slug in store.rows
    modifies store
    ensures store.Valid() && store.sites == old(store.sites) && store.tmp == old(store.tmp)
    ensures store.Holds(id, Replace(slug, input), if recorded then DroppingParked else Withdrawing, content)
    ensures store.rows == if recorded then old(store.rows)[slug := ReplacedRow(old(store.rows)[slug], input, now)] else old(store.rows)
    ensures store.Plan() == old(store.Plan()) && store.draws == old(store.draws)
    ensures store.faults == old(store.faults) + if recorded then 0 else 1
  {
    ghost var before := store.World();
    RecordTakes(before, id);
    var result := store.ReplaceRow(slug, input, now);
    recorded := result.Done?;
    var pc := if recorded then DroppingParked else Withdrawing;
    store.Conclude(id, Some(Job(Replace(slug, input), pc, content)), before, if recorded then Proceed else Fail);
  }
}
