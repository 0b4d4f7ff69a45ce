/** Publication: reserve a slug in both stores, install, commit, and clean up what is owned. */
module Publishing {
  import opened Calls
  import opened Contents
  import opened Histories
  import opened Machine
  import opened Names
  import opened NewSites
  import opened Protocol
  import opened Safety
  import opened Steps
  import opened Stores
  import opened Trees
  import opened Wrappers

  /** One new row, with the columns that a publication is for. */
  ghost predicate RowAdded(before: State, after: State, input: NewSite, slug: string, now: int) {
    && slug in after.rows && IsNewRow(after.rows[slug], input, now)
    && after.rows == before.rows[slug := after.rows[slug]]
  }

  /** A row and whole content at a slug that had neither; everything else as before. */
  ghost predicate Published(before: State, after: State, input: NewSite, slug: string, now: int) {
    && slug !in before.rows && slug !in before.sites && WriteAll(input.files).Some?
    && (input.slug.Some? ==> slug == input.slug.value)
    && RowAdded(before, after, input, slug, now)
    && after.sites == before.sites[slug := WriteAll(input.files).value]
  }

  /** A commit of unknown outcome: the content is whole, the row absent or complete. */
  ghost predicate InDoubt(before: State, after: State, input: NewSite, slug: string, now: int) {
    && slug !in before.rows && slug !in before.sites && WriteAll(input.files).Some?
    && (after.rows == before.rows || RowAdded(before, after, input, slug, now))
    && after.sites == before.sites[slug := WriteAll(input.files).value]
  }

  /** Nothing has changed except for an empty reservation that the job still owns. */
  ghost predicate LeftAlone(before: State, after: State, content: Ownership) {
    && after.rows == before.rows
    && !content.stagingRemoved && !content.preserveInstalled
    && match content.installed
       case None => after.sites == before.sites
       case Some(slug) => slug !in before.sites && after.sites == before.sites[slug := EMPTY_DIRECTORY]
  }

  /** Everything a publication can come to between taking the lock and cleaning up. */
  ghost predicate PublicationOutcome(before: State, after: State, input: NewSite, content: Ownership, now: int,
                                     outcome: Result<string, Failure>, faulted: bool, draws: seq<Draw>)
  {
    match outcome
    case Ok(slug) =>
      Published(before, after, input, slug, now) && content.stagingRemoved && content.installed == Some(slug)
    case Err(SlugConflict) =>
      input.slug.Some? && Taken(before, input.slug.value) && LeftAlone(before, after, content)
    case Err(Operational) =>
      || (LeftAlone(before, after, content) && (faulted || (input.slug.None? && SlugsRanOut(before, draws))))
      || (faulted && content.stagingRemoved && content.installed.Some?
          && InDoubt(before, after, input, content.installed.value, now))
    case Err(_) => false
  }

  /** The slug is taken by a row or by a directory. */
  predicate Taken(s: State, slug: string) {
    slug in s.rows || slug in s.sites
  }

  /** The last eight names drawn are all taken. */
  predicate SlugsRanOut(s: State, draws: seq<Draw>) {
    |draws| >= MAX_SLUG_ATTEMPTS && AllTaken(s, draws[|draws| - MAX_SLUG_ATTEMPTS..])
  }

  predicate AllTaken(s: State, draws: seq<Draw>) {
    forall draw <- draws :: Taken(s, draw.name)
  }

  /** One attempt at a slug, from the insertion to the commit; `false` says that the slug was taken. */
  method TryPublish(store: Store, id: JobId, input: NewSite, content: Content, now: int, attempt: nat, slug: string)
    returns (published: Result<bool, Failure>)
    requires store.Valid() && store.Holds(id, Publish(input), Inserting(now, attempt, slug), content.Record()) && content.Fresh()
    requires input.slug.Some? ==> slug == input.slug.value
    modifies store, content
    ensures store.Plan() == old(store.Plan()) && store.draws == old(store.draws)
    ensures store.Valid() && store.faults >= old(store.faults)
    ensures published == Ok(false) ==>
      && store.rows == old(store.rows) && store.sites == old(store.sites) && content.Fresh()
      && Taken(store.World(), slug)
      && store.Holds(id, Publish(input), AfterConflict(input, now, attempt), content.Record())
    ensures published != Ok(false) ==>
      && store.Holds(id, Publish(input), Unreserving, content.Record())
      && PublicationOutcome(old(store.World()), store.World(), input, content.Record(), now,
                            if published.Ok? then Ok(slug) else Err(Operational), store.faults > old(store.faults), store.draws)
  {
    var inserted := Insert(store, id, input, content, now, attempt, slug);
    if inserted.Faulted? {
      RollBack(store, id, input, content);
      return Err(Operational);
    }
    if inserted.Refused? {
      published := Decline(store, id, input, content, now, attempt);
      return;
    }
    published := ReserveAndCommit(store, id, input, content, now, attempt, slug);
  }

  method ReserveAndCommit(store: Store, id: JobId, input: NewSite, content: Content, now: int, attempt: nat, slug: string)
    returns (published: Result<bool, Failure>)
    requires store.Valid() && store.Holds(id, Publish(input), Reserving(now, attempt, slug), content.Record()) && content.Fresh()
    requires slug !in store.rows && (input.slug.Some? ==> slug == input.slug.value)
    modifies store, content
    ensures store.Plan() == old(store.Plan()) && store.draws == old(store.draws)
    ensures store.Valid() && store.faults >= old(store.faults)
    ensures published == Ok(false) ==>
      && store.rows == old(store.rows) && store.sites == old(store.sites) && content.Fresh()
      && slug in store.sites
      && store.Holds(id, Publish(input), AfterConflict(input, now, attempt), content.Record())
    ensures published != Ok(false) ==>
      && store.Holds(id, Publish(input), Unreserving, content.Record())
      && PublicationOutcome(old(store.World()), store.World(), input, content.Record(), now,
                            if published.Ok? then Ok(slug) else Err(Operational), store.faults > old(store.faults), store.draws)
  {
    var reserved := content.ReserveDestination(store, id, Publish(input), now, attempt, slug);
    if reserved.Faulted? {
      RollBack(store, id, input, content);
      return Err(Operational);
    }
    if reserved.Refused? {
      published := Decline(store, id, input, content, now, attempt);
      return;
    }
    published := InstallAndCommit(store, id, input, content, now, slug);
    PublishedColumns(input, now);
    InstalledOverReservation(old(store.sites), slug);
  }

  lemma InstalledOverReservation(sites: map<string, Tree>, slug: string)
    ensures forall tree: Tree {:trigger sites[slug := tree]} :: sites[slug := EMPTY_DIRECTORY][slug := tree] == sites[slug := tree]
  {}

  /** The insertion in an open transaction. */
  method Insert(store: Store, id: JobId, input: NewSite, content: Content, now: int, attempt: nat, slug: string)
    returns (inserted: CallResult)
    requires store.Valid() && store.Holds(id, Publish(input), Inserting(now, attempt, slug), content.Record())
    modifies store
    ensures store.Plan() == old(store.Plan()) && store.draws == old(store.draws)
    ensures store.Valid() && store.rows == old(store.rows) && store.sites == old(store.sites)
    ensures !inserted.Faulted? ==> (inserted.Refused? <==> slug in store.rows)
    ensures store.Holds(id, Publish(input), match inserted
                                            case Done => Reserving(now, attempt, slug)
                                            case Refused => Declining(now, attempt)
                                            case Faulted => RollingBack, content.Record())
    ensures store.faults == old(store.faults) + if inserted.Faulted? then 1 else 0
  {
    store.Interfere(id);
    ghost var before := store.World();
    inserted := store.InsertRow(slug);
    var pc := if inserted.Done? then Reserving(now, attempt, slug)
              else if inserted.Refused? then Declining(now, attempt) else RollingBack;
    InsertTakes(before, id);
    store.Conclude(id, Some(Job(Publish(input), pc, content.Record())), before, if inserted.Faulted? then Fail else Proceed);
  }

  /** The rollback after an error, whose own error changes nothing. */
  method RollBack(store: Store, id: JobId, input: NewSite, content: Content)
    requires store.Valid() && store.Holds(id, Publish(input), RollingBack, content.Record())
    modifies store
    ensures store.Plan() == old(store.Plan()) && store.draws == old(store.draws)
    ensures store.Valid() && store.Holds(id, Publish(input), Unreserving, content.Record())
    ensures store.rows == old(store.rows) && store.sites == old(store.sites) && store.faults >= old(store.faults)
  {
    store.Interfere(id);
    ghost var before := store.World();
    var fault := store.Fault();
    ghost var choice := if fault then Fail else Proceed;
    RollBackTakes(before, id, choice);
    store.Conclude(id, Some(Job(Publish(input), Unreserving, content.Record())), before, choice);
  }

  /** The rollback of an occupied candidate. */
  method Decline(store: Store, id: JobId, input: NewSite, content: Content, now: int, attempt: nat)
    returns (declined: Result<bool, Failure>)
    requires store.Valid() && store.Holds(id, Publish(input), Declining(now, attempt), content.Record())
    modifies store
    ensures store.Plan() == old(store.Plan()) && store.draws == old(store.draws)
    ensures store.Valid() && store.rows == old(store.rows) && store.sites == old(store.sites)
    ensures declined == Ok(false) || declined == Err(Operational)
    ensures store.Holds(id, Publish(input), if declined.Ok? then AfterConflict(input, now, attempt) else Unreserving, content.Record())
    ensures store.faults == old(store.faults) + if declined.Ok? then 0 else 1
  {
    store.Interfere(id);
    ghost var before := store.World();
    var fault := store.Fault();
    var pc := if fault then Unreserving else AfterConflict(input, now, attempt);
    DeclineTakes(before, id);
    store.Conclude(id, Some(Job(Publish(input), pc, content.Record())), before, if fault then Fail else Proceed);
    declined := if fault then Err(Operational) else Ok(false);
  }

  /** Installs staging at the reservation, then commits. */
  method InstallAndCommit(store: Store, id: JobId, input: NewSite, content: Content, now: int, slug: string)
    returns (published: Result<bool, Failure>)
    requires store.Valid() && store.Holds(id, Publish(input), Installing(now, slug), content.Record())
    requires content.Record().installed == Some(slug) && !content.preserveInstalled && !content.stagingRemoved
    modifies store, content
    ensures store.Plan() == old(store.Plan()) && store.draws == old(store.draws)
    ensures store.Valid() && store.Holds(id, Publish(input), Unreserving, content.Record())
    ensures content.installedDirectory == Some(slug)
    ensures published.Ok? ==>
      && published.value && WriteAll(input.files).Some? && content.stagingRemoved
      && store.rows == old(store.rows)[slug := NewRow(input, now)]
      && store.sites == old(store.sites)[slug := WriteAll(input.files).value]
    ensures published.Err? ==>
      && published == Err(Operational) && store.faults > old(store.faults)
      && if content.stagingRemoved
         then WriteAll(input.files).Some?
              && (store.rows == old(store.rows) || store.rows == old(store.rows)[slug := NewRow(input, now)])
              && store.sites == old(store.sites)[slug := WriteAll(input.files).value]
         else store.rows == old(store.rows) && store.sites == old(store.sites) && content.Record() == old(content.Record())
    ensures store.faults >= old(store.faults)
  {
    var renamed := content.Install(store, id, Publish(input), now, slug);
    if !renamed.Done? {
      RollBack(store, id, input, content);
      return Err(Operational);
    }
    var committed := Commit(store, id, input, content, now, slug);
    published := if committed then Ok(true) else Err(Operational);
  }

  /** The commit: installed content is kept from now on, whether or not the row turns out to be there. */
  method Commit(store: Store, id: JobId, input: NewSite, content: Content, now: int, slug: string)
    returns (committed: bool)
    requires store.Valid() && store.Holds(id, Publish(input), Committing(now, slug), content.Record())
    modifies store, content`preserveInstalled
    ensures store.Plan() == old(store.Plan()) && store.draws == old(store.draws)
    ensures store.Valid() && store.Holds(id, Publish(input), Unreserving, content.Record()) && content.preserveInstalled
    ensures store.sites == old(store.sites)
    ensures store.rows == old(store.rows)[slug := NewRow(input, now)] || (!committed && store.rows == old(store.rows))
    ensures store.faults == old(store.faults) + if committed then 0 else 1
  {
    store.Interfere(id);
    ghost var before := store.World();
    content.PreserveInstalled();
    var result, applied := store.CommitRow(slug, NewRow(input, now));
    CommitTakes(before, id, applied);
    store.Conclude(id, Some(Job(Publish(input), Unreserving, content.Record())), before,
                   if result.Done? then Proceed else Unsure(applied));
    committed := result.Done?;
  }

  /** Tries at most eight slugs for complete staging, and none of them twice over existing content. */
  method PublishStaged(store: Store, id: JobId, input: NewSite, content: Content)
    returns (outcome: Result<string, Failure>)
    requires store.Valid() && store.Holds(id, Publish(input), Dating, content.Record()) && content.Fresh()
    requires store.history.clock.None?
    modifies store, content
    ensures store.Valid() && store.Holds(id, Publish(input), Unreserving, content.Record())
    ensures store.faults >= old(store.faults)
    ensures store.Plan().(clock := None) == old(store.Plan()) && (store.history.clock.None? ==> outcome == Err(Operational))
    ensures store.history.clock.None? ==>
      store.faults > old(store.faults) && LeftAlone(old(store.World()), store.World(), content.Record())
    ensures store.history.clock.Some? ==>
      PublicationOutcome(old(store.World()), store.World(), input, content.Record(), store.history.clock.value,
                         outcome, store.faults > old(store.faults), store.draws)
  {
    var clock := UnixNow(store, id, Publish(input), content.Record());
    if clock.None? { return Err(Operational); }
    outcome := PublishDated(store, id, input, content, clock.value);
  }

  /** The loop over the candidates, once the publication has its time. */
  method PublishDated(store: Store, id: JobId, input: NewSite, content: Content, now: int)
    returns (outcome: Result<string, Failure>)
    requires store.Valid() && store.Holds(id, Publish(input), Choosing(now, 0), content.Record()) && content.Fresh()
    modifies store, content
    ensures store.Valid() && store.Holds(id, Publish(input), Unreserving, content.Record())
    ensures store.faults >= old(store.faults) && store.Plan() == old(store.Plan())
    ensures PublicationOutcome(old(store.World()), store.World(), input, content.Record(), now,
                               outcome, store.faults > old(store.faults), store.draws)
  {
    for attempt := 0 to MAX_SLUG_ATTEMPTS
      invariant store.Valid() && content.Fresh() && store.faults >= old(store.faults)
      invariant store.rows == old(store.rows) && store.sites == old(store.sites)
      invariant store.Plan() == old(store.Plan())
      invariant store.Holds(id, Publish(input),
                            if attempt < MAX_SLUG_ATTEMPTS then Choosing(now, attempt) else Unreserving, content.Record())
      invariant |store.draws| == |old(store.draws)| + attempt
      invariant AllTaken(old(store.World()), store.draws[|old(store.draws)|..])
      invariant input.slug.Some? ==> attempt == 0
    {
      var tried := TryCandidate(store, id, input, content, now, attempt);
      if tried.Some? { return tried.value; }
    }
    outcome := Err(Operational);
  }

  /** One pass of the loop: an outcome, or the next candidate after a conflict of a generated slug. */
  method TryCandidate(store: Store, id: JobId, input: NewSite, content: Content, now: int, attempt: nat)
    returns (outcome: Option<Result<string, Failure>>)
    requires store.Valid() && store.Holds(id, Publish(input), Choosing(now, attempt), content.Record()) && content.Fresh()
    modifies store, content
    ensures store.Valid() && store.faults >= old(store.faults) && store.Plan() == old(store.Plan())
    ensures outcome.None? ==>
      && store.rows == old(store.rows) && store.sites == old(store.sites) && content.Fresh() && input.slug.None?
      && store.Holds(id, Publish(input), AfterConflict(input, now, attempt), content.Record())
      && |store.draws| == |old(store.draws)| + 1 && store.draws[..|old(store.draws)|] == old(store.draws)
      && Taken(store.World(), store.draws[|old(store.draws)|].name)
    ensures outcome.Some? ==>
      && store.Holds(id, Publish(input), Unreserving, content.Record())
      && PublicationOutcome(old(store.World()), store.World(), input, content.Record(), now,
                            outcome.value, store.faults > old(store.faults), store.draws)
  {
    var slug := ChooseSlug(store, id, input, content.Record(), now, attempt);
    if slug.None? { return Some(Err(Operational)); }
    var published := TryPublish(store, id, input, content, now, attempt, slug.value);
    if published.Err? { return Some(Err(Operational)); }
    if published.value { return Some(Ok(slug.value)); }
    outcome := if input.slug.Some? then Some(Err(SlugConflict)) else None;
  }

  /** The requested slug or a generated one, and a transaction to insert it in. */
  method ChooseSlug(store: Store, id: JobId, input: NewSite, content: Ownership, now: int, attempt: nat)
    returns (slug: Option<string>)
    requires store.Valid() && store.Holds(id, Publish(input), Choosing(now, attempt), content)
    modifies store
    ensures store.Valid() && store.rows == old(store.rows) && store.sites == old(store.sites)
    ensures slug.Some? && input.slug.Some? ==> slug == input.slug
    ensures store.Holds(id, Publish(input), if slug.Some? then Inserting(now, attempt, slug.value) else Unreserving, content)
    ensures store.Plan() == old(store.Plan()) && store.faults == old(store.faults) + if slug.None? then 1 else 0
    ensures slug.Some? ==>
      && |store.draws| == |old(store.draws)| + 1 && store.draws[..|old(store.draws)|] == old(store.draws)
      && store.draws[|old(store.draws)|].name == slug.value
  {
    store.Interfere(id);
    ghost var before := store.World();
    RequestedSlugIsValid(before, id);
    slug := input.slug;
    if slug.None? { slug := store.RandomSlug(); }
    var begun := store.Fault();
    if begun { slug := None; }
    var pc := if slug.Some? then Inserting(now, attempt, slug.value) else Unreserving;
    if slug.Some? { ChooseTakes(before, id, slug.value); } else { ChooseFails(before, id); }
    store.Conclude(id, Some(Job(Publish(input), pc, content)), before, if slug.Some? then Pick(slug.value) else Fail);
  }

  /** An empty directory without a row is left behind at a slug that had neither. */
  ghost predicate ReservationLeft(before: State, after: State, slug: string) {
    slug !in before.sites && after.rows == before.rows && after.sites == before.sites[slug := EMPTY_DIRECTORY]
  }

  /** The destination that the job had reserved or filled when it began to clean up. */
  ghost function Reserved(h: History): Option<string> {
    if h.closing.Some? && h.me in Reached(h.closing.value).jobs then Reached(h.closing.value).jobs[h.me].content.installed
    else None
  }

  /**
   * What a publication that took the lock has made of the store when it gives the lock back. A cleanup in
   * which a call failed turns any outcome into an error.
   */
  ghost predicate CreationOutcome(before: State, after: State, input: NewSite, outcome: Result<string, Failure>,
                                  h: History, faults: nat, draws: seq<Draw>)
  {
    match outcome
    case Ok(slug) => !Untidy(h, faults) && h.clock.Some? && Published(before, after, input, slug, h.clock.value)
    case Err(SlugConflict) =>
      !Untidy(h, faults) && input.slug.Some? && Taken(before, input.slug.value) && Unchanged(before, after)
    case Err(Operational) =>
      && (faults > 0 || (input.slug.None? && SlugsRanOut(before, draws)))
      && (|| Unchanged(before, after)
          || (faults > 0 && h.clock.Some? && Reserved(h).Some?
              && InDoubt(before, after, input, Reserved(h).value, h.clock.value))
          || (Untidy(h, faults) && Reserved(h).Some? && ReservationLeft(before, after, Reserved(h).value)))
    case Err(_) => false
  }

  /**
   * A publication from request to answer. Without the lock the job has changed nothing outside its own staging; with it,
   * the state in which it took the lock is compared with the state in which it gives it back.
   */
  method Create(store: Store, id: JobId, input: NewSite) returns (outcome: Result<string, Failure>)
    requires store.Valid() && store.phase.Serving? && id !in store.jobs && ValidTask(Publish(input))
    modifies store
    ensures store.Valid() && store.phase.Serving?
    ensures CallOf(store.history, id, Publish(input), old(store.history.trace), old(store.pending))
    ensures if outcome == Err(Unfinished) then StillWaiting(store.World(), store.pending, id, Publish(input)) else id !in store.jobs
    ensures store.history.locked.None? ==>
      && KeptOut(store.history)
      && (outcome == Err(Unfinished)
          || (outcome == Err(Operational) && StagingEnded(input, store.history, store.faults, store.draws)))
    ensures store.history.locked.Some? ==>
      && PrefixFree(input.files) && Sound(store.World())
      && CreationOutcome(Reached(store.history.locked.value), store.World(), input, outcome, store.history, store.faults, store.draws)
      && store.history.closing.Some? && (Untidy(store.history, store.faults) || Tidied(store.history))
  {
    var staged := StageAndLock(store, id, Publish(input));
    if staged.Err? { return Err(staged.error); }
    outcome := CreateLocked(store, id, input, staged.value);
  }

  /** The part of a publication under the lock. */
  method CreateLocked(store: Store, id: JobId, input: NewSite, content: Content)
    returns (outcome: Result<string, Failure>)
    requires store.Valid() && store.Holds(id, Publish(input), Dating, content.Record()) && content.Fresh()
    requires store.faults == 0 && store.history.clock.None? && store.history.closing.None? && store.history.closed.None?
    modifies store, content
    ensures store.Valid() && store.phase.Serving? && id !in store.jobs && Sound(store.World())
    ensures store.Plan().(clock := None, closing := None, closed := None) == old(store.Plan())
    ensures CreationOutcome(old(store.World()), store.World(), input, outcome, store.history, store.faults, store.draws)
    ensures store.history.closing.Some? && (!Untidy(store.history, store.faults) ==> Tidied(store.history))
  {
    outcome := PublishStaged(store, id, input, content);
    ghost var between, failed := store.World(), store.faults > 0;
    var clean := content.Cleanup(store, id, Publish(input));
    store.Release(id);
    CreationIsCleanedUp(old(store.World()), between, store.World(), input, content.Record(), outcome, failed,
                        store.history, store.faults, store.draws);
    if !clean { outcome := Err(Operational); }
  }

  /** What the cleanup makes of a publication. */
  lemma CreationIsCleanedUp(before: State, between: State, after: State, input: NewSite, content: Ownership,
                            outcome: Result<string, Failure>, failed: bool, h: History, faults: nat, draws: seq<Draw>)
    requires h.clock.None? ==> failed && outcome == Err(Operational) && LeftAlone(before, between, content)
    requires h.clock.Some? ==>
      PublicationOutcome(before, between, input, content, h.clock.value, outcome, failed, draws)
    requires (failed || Untidy(h, faults)) ==> faults > 0
    requires after.rows == between.rows && Reserved(h) == content.installed
    requires !Unused(content) ==> after.sites == between.sites
    requires Unused(content) ==>
      || after.sites == between.sites - {content.installed.value}
      || (Untidy(h, faults) && after.sites == between.sites)
    ensures CreationOutcome(before, after, input, if Untidy(h, faults) then Err(Operational) else outcome, h, faults, draws)
  {
    if content.installed.Some? { ReservationTakenBack(before.sites, content.installed.value); }
  }

  lemma ReservationTakenBack(sites: map<string, Tree>, slug: string)
    ensures slug !in sites ==> sites[slug := EMPTY_DIRECTORY] - {slug} == sites
  {}

  lemma RequestedSlugIsValid(s: State, id: JobId)
    requires Reachable(s) && id in s.jobs && s.jobs[id].task.Publish?
    ensures var input := s.jobs[id].task.input; input.slug.Some? ==> ValidSlug(input.slug.value)
  {
    Known(s, id);
  }
}
