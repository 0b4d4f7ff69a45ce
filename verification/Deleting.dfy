/** Deletion: the row first, then the content it confers permission to remove. */
module Deleting {
  import opened Calls
  import opened Histories
  import opened Machine
  import opened Names
  import opened Protocol
  import opened Safety
  import opened Steps
  import opened Stores
  import opened Trees
  import opened Wrappers

  datatype DeleteOutcome = NotFound | Deleted | DeletedContentRetained

  /** What is left of a directory was there before, with the same content. */
  ghost predicate PartOf(rest: Tree, tree: Tree) {
    forall p | p in rest :: p in tree && rest[p] == tree[p]
  }

  /** No other slug's content is touched, and at this one only something that was there can be left. */
  ghost predicate OnlyShrunk(before: map<string, Tree>, after: map<string, Tree>, slug: string) {
    && after - {slug} == before - {slug}
    && (slug in after ==> slug in before && PartOf(after[slug], before[slug]))
  }

  /** A deletion reports success only for a row it removed, and touches content only after that. */
  ghost predicate DeletionOutcome(before: State, after: State, slug: string, outcome: Result<DeleteOutcome, Failure>,
                                  faulted: bool)
  {
    match outcome
    case Ok(NotFound) => slug !in before.rows && Unchanged(before, after)
    case Ok(Deleted) =>
      slug in before.rows && after.rows == before.rows - {slug} && after.sites == before.sites - {slug}
    case Ok(DeletedContentRetained) =>
      faulted && slug in before.rows && after.rows == before.rows - {slug} && OnlyShrunk(before.sites, after.sites, slug)
    case Err(Operational) =>
      faulted && after.sites == before.sites && (after.rows == before.rows || after.rows == before.rows - {slug})
    case Err(_) => false
  }

  /** What a call that deletes a slug reports at its end, when the store is as given. */
  ghost predicate DeletionReported(h: History, after: State, pending: seq<Event>, slug: string,
                                   outcome: Result<DeleteOutcome, Failure>, faults: nat)
  {
    && (if outcome == Err(Unfinished) then StillWaiting(after, pending, h.me, Delete(slug)) else h.me !in after.jobs)
    && (h.locked.None? ==> KeptOut(h) && outcome == Err(Unfinished))
    && (h.locked.Some? ==>
          Sound(after) && DeletionOutcome(Reached(h.locked.value), after, slug, outcome, faults > 0))
  }

  /** Deletes the site of a slug: its row, and after that its content. */
  method DeleteSite(store: Store, id: JobId, slug: string) returns (outcome: Result<DeleteOutcome, Failure>)
    requires store.Valid() && store.phase.Serving? && id !in store.jobs && ValidSlug(slug)
    modifies store
    ensures store.Valid() && store.phase.Serving?
    ensures CallOf(store.history, id, Delete(slug), old(store.history.trace), old(store.pending))
    ensures DeletionReported(store.history, store.World(), store.pending, slug, outcome, store.faults)
  {
    var acquired := LockFor(store, id, Delete(slug));
    if !acquired { return Err(Unfinished); }
    outcome := DeleteLocked(store, id, slug);
  }

  /** The part of a deletion under the lock. */
  method DeleteLocked(store: Store, id: JobId, slug: string) returns (outcome: Result<DeleteOutcome, Failure>)
    requires store.Valid() && store.Holds(id, Delete(slug), Finding, NO_CONTENT)
    modifies store
    ensures store.Valid() && store.phase.Serving? && id !in store.jobs && store.Plan() == old(store.Plan())
    ensures store.faults >= old(store.faults) && Sound(store.World())
    ensures DeletionOutcome(old(store.World()), store.World(), slug, outcome, store.faults > old(store.faults))
  {
    var found := FindRow(store, id, Delete(slug), NO_CONTENT);
    if !found.Done? {
      store.Release(id);
      return if found.Refused? then Ok(NotFound) else Err(Operational);
    }
    var removed := RemoveRow(store, id, slug);
    if !removed {
      store.Release(id);
      return Err(Operational);
    }
    var cleared := RemoveContent(store, id, slug);
    store.Release(id);
    outcome := Ok(if cleared then Deleted else DeletedContentRetained);
  }

  /** The acknowledged removal of the row. */
  method RemoveRow(store: Store, id: JobId, slug: string) returns (removed: bool)
    requires store.Valid() && store.Holds(id, Delete(slug), DeletingRow, NO_CONTENT) && slug in store.rows
    modifies store
    ensures store.Plan() == old(store.Plan())
    ensures store.Valid() && store.Holds(id, Delete(slug), if removed then DeletingContent else Releasing, NO_CONTENT)
    ensures store.sites == old(store.sites)
    ensures store.rows == old(store.rows) - {slug} || (!removed && store.rows == old(store.rows))
    ensures store.faults == old(store.faults) + if removed then 0 else 1
  {
    store.Interfere(id);
    removed := RemoveRowNow(store, id, slug);
  }

  method RemoveRowNow(store: Store, id: JobId, slug: string) returns (removed: bool)
    requires store.Valid() && store.Holds(id, Delete(slug), DeletingRow, NO_CONTENT) && slug in store.rows
    modifies store
    ensures store.Plan() == old(store.Plan())
    ensures store.Valid() && store.Holds(id, Delete(slug), if removed then DeletingContent else Releasing, NO_CONTENT)
    ensures store.sites == old(store.sites)
    ensures store.rows == old(store.rows) - {slug} || (!removed && store.rows == old(store.rows))
    ensures store.faults == old(store.faults) + if removed then 0 else 1
  {
    ghost var before := store.World();
    var result, applied := store.DeleteRow(slug);
    removed := result.Done?;
    DeleteRowTakes(before, id, applied);
    store.Conclude(id, Some(Job(Delete(slug), if removed then DeletingContent else Releasing, NO_CONTENT)), before,
                   if removed then Proceed else Unsure(applied));
  }

  /** Removes the site directory, if there is one; a failure may leave any part of it. */
  method RemoveContent(store: Store, id: JobId, slug: string) returns (cleared: bool)
    requires store.Valid() && store.Holds(id, Delete(slug), DeletingContent, NO_CONTENT)
    modifies store
    ensures store.Plan() == old(store.Plan())
    ensures store.Valid() && store.Holds(id, Delete(slug), Releasing, NO_CONTENT) && store.rows == old(store.rows)
    ensures cleared ==> store.sites == old(store.sites) - {slug}
    ensures OnlyShrunk(old(store.sites), store.sites, slug)
    ensures store.faults == old(store.faults) + if cleared then 0 else 1
  {
    var pauses: int := *;
    while 0 < pauses && slug in store.sites
      invariant store.Valid() && store.Holds(id, Delete(slug), DeletingContent, NO_CONTENT) && store.rows == old(store.rows)
      invariant OnlyShrunk(old(store.sites), store.sites, slug)
      invariant store.faults == old(store.faults) && store.Plan() == old(store.Plan())
    {
      RemovePartOfContent(store, id, slug);
      pauses := pauses - 1;
    }
    cleared := RemoveRestOfContent(store, id, slug);
  }

  /** The end of the recursive removal, or the error that stops it. */
  method RemoveRestOfContent(store: Store, id: JobId, slug: string) returns (cleared: bool)
    requires store.Valid() && store.Holds(id, Delete(slug), DeletingContent, NO_CONTENT)
    modifies store
    ensures store.Plan() == old(store.Plan())
    ensures store.Valid() && store.Holds(id, Delete(slug), Releasing, NO_CONTENT) && store.rows == old(store.rows)
    ensures store.sites == if cleared then old(store.sites) - {slug} else old(store.sites)
    ensures store.faults == old(store.faults) + if cleared then 0 else 1
  {
    store.Interfere(id);
    var fault := store.Fault();
    cleared := !fault;
    if fault { LeaveContent(store, id, slug); } else { EraseContent(store, id, slug); }
  }

  /** The directory itself goes. */
  method EraseContent(store: Store, id: JobId, slug: string)
    requires store.Valid() && store.Holds(id, Delete(slug), DeletingContent, NO_CONTENT)
    modifies store
    ensures store.Valid() && store.Holds(id, Delete(slug), Releasing, NO_CONTENT) && store.rows == old(store.rows)
    ensures store.Plan() == old(store.Plan()) && store.sites == old(store.sites) - {slug} && store.faults == old(store.faults)
  {
    ghost var before := store.World();
    DeleteContentTakes(before, id);
    store.sites := store.sites - {slug};
    store.Conclude(id, Some(Job(Delete(slug), Releasing, NO_CONTENT)), before, Proceed);
  }

  /** The removal fails where it is. */
  method LeaveContent(store: Store, id: JobId, slug: string)
    requires store.Valid() && store.Holds(id, Delete(slug), DeletingContent, NO_CONTENT)
    modifies store
    ensures store.Valid() && store.Holds(id, Delete(slug), Releasing, NO_CONTENT) && store.rows == old(store.rows)
    ensures store.Plan() == old(store.Plan()) && store.sites == old(store.sites) && store.faults == old(store.faults) + 1
  {
    DeleteContentTakes(store.World(), id);
    store.Conclude(id, Some(Job(Delete(slug), Releasing, NO_CONTENT)), store.World(), Fail);
  }

  method RemovePartOfContent(store: Store, id: JobId, slug: string)
    requires store.Valid() && store.Holds(id, Delete(slug), DeletingContent, NO_CONTENT) && slug in store.sites
    modifies store
    ensures store.Plan() == old(store.Plan())
    ensures store.Valid() && store.Holds(id, Delete(slug), DeletingContent, NO_CONTENT) && store.rows == old(store.rows)
    ensures OnlyShrunk(old(store.sites), store.sites, slug)
    ensures store.faults == old(store.faults)
  {
    store.Interfere(id);
    ghost var before := store.World();
    var gone: set<Path> := *;
    var rest := store.sites[slug] - gone;
    store.sites := store.sites[slug := rest];
    DeletePartTakes(before, id, rest);
    store.Conclude(id, Some(Job(Delete(slug), DeletingContent, NO_CONTENT)), before, Leave(rest));
  }
}
