/** Calls that several kinds of job make under the lock. */
module Calls {
  import opened Histories
  import opened Machine
  import opened Names
  import opened NewSites
  import opened Protocol
  import opened Steps
  import opened Stores
  import opened Trees
  import opened Wrappers

  /**
   * An operational failure, an occupied slug, or input that the current state rejects; or the call has not
   * come back, because the schedule of the other jobs ended while it was waiting for the lock.
   */
  datatype Failure = Operational | SlugConflict | Rejected(error: InputError) | Unfinished

  /** Rows and content are as they were. */
  ghost predicate Unchanged(before: State, after: State) {
    after.rows == before.rows && after.sites == before.sites
  }

  /** The job is where it was when the others had no more to do: waiting for a lock that one of them holds. */
  ghost predicate StillWaiting(s: State, pending: seq<Event>, id: JobId, task: Task) {
    && id in s.jobs && s.jobs[id].task == task && s.jobs[id].pc.Waiting?
    && s.holder.Some? && s.holder != Some(id)
    && (pending == [] || !OthersMay(s, pending[0], id))
  }

  /**
   * How a job can end before it waits for the lock: a call failed, the names ran out, or the files clash.
   * Either it has staged nothing, or it has cleaned up, completely unless that failed as well.
   */
  ghost predicate StagingEnded(input: NewSite, h: History, faults: nat, draws: seq<Draw>) {
    && (faults > 0 || StagingNamesRanOut(draws) || !PrefixFree(input.files))
    && (NothingStaged(draws) || h.closing.Some?)
    && (h.closing.Some? && !Untidy(h, faults) ==> StagingIsGone(h))
  }

  /** Waits for the lock with a job that stages nothing; false if the others never let it have it. */
  method LockFor(store: Store, id: JobId, task: Task) returns (acquired: bool)
    requires store.Valid() && store.phase.Serving? && id !in store.jobs && ValidTask(task) && !Stages(task)
    modifies store
    ensures store.Valid() && store.phase.Serving?
    ensures store.faults == 0 && store.history.clock.None?
    ensures CallOf(store.history, id, task, old(store.history.trace), old(store.pending))
    ensures acquired <==> store.history.locked.Some?
    ensures acquired ==>
      store.Holds(id, task, Finding, NO_CONTENT) && Reached(store.history.locked.value) == store.World()
    ensures !acquired ==>
      KeptOut(store.history) && StillWaiting(store.World(), store.pending, id, task)
  {
    store.Begin(id, task);
    acquired := store.Acquire(id);
    if !acquired { store.Retell(); }
  }

  /** Reads the clock under the lock. */
  method UnixNow(store: Store, id: JobId, task: Task, content: Ownership) returns (now: Option<int>)
    requires store.Valid() && store.Holds(id, task, Dating, content) && PcFits(task, Dating)
    modifies store
    ensures store.Valid() && store.rows == old(store.rows) && store.sites == old(store.sites)
    ensures store.Holds(id, task, if now.Some? then Dated(task, now.value) else Ending(task), content)
    ensures Stages(task) ==> ParkedStays(old(store.tmp), store.tmp, content)
    ensures store.Plan() == if now.Some? then old(store.Plan()).(clock := now) else old(store.Plan())
    ensures store.faults == old(store.faults) + (if now.None? then 1 else 0) && store.draws == old(store.draws)
  {
    store.Interfere(id);
    ghost var before := store.World();
    now := store.Now();
    if now.Some? {
      DateTakes(before, id, now.value);
      store.ConcludeAt(id, Job(task, Dated(task, now.value), content), before, now.value);
    } else {
      DateTakes(before, id, 0);
      store.Conclude(id, Some(Job(task, Ending(task), content)), before, Fail);
    }
  }

  /** Looks the row up under the lock. */
  method FindRow(store: Store, id: JobId, task: Task, content: Ownership) returns (found: CallResult)
    requires store.Valid() && !task.Publish? && store.Holds(id, task, Finding, content)
    modifies store
    ensures store.Valid() && store.rows == old(store.rows) && store.sites == old(store.sites)
    ensures store.Holds(id, task, if found.Done? then Found(task) else Ending(task), content)
    ensures !found.Faulted? ==> (found.Done? <==> Slug(task) in store.rows)
    ensures Stages(task) ==> ParkedStays(old(store.tmp), store.tmp, content)
    ensures store.Plan() == old(store.Plan()) && store.draws == old(store.draws)
    ensures store.faults == old(store.faults) + if found.Faulted? then 1 else 0
  {
    store.Interfere(id);
    ghost var before := store.World();
    var fault := store.Fault();
    found := if fault then Faulted else if Slug(task) in store.rows then Done else Refused;
    FindTakes(before, id);
    var pc := if found.Done? then Found(task) else Ending(task);
    store.Conclude(id, Some(Job(task, pc, content)), before, if fault then Fail else Proceed);
  }
}
