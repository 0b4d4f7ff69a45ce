/** Where the expiry of a row comes from. */
module Expiries {
  import opened Invariants
  import opened Machine
  import opened Protocol
  import opened Runs
  import opened SiteSettings
  import opened Wrappers

  /** The job is about to write an expiry for the slug: it publishes it, or saves anything but the old expiry. */
  predicate SetsExpiry(job: Job, slug: string) {
    || (job.task.Publish? && job.pc.Committing? && job.pc.slug == slug)
    || (job.task.Update? && job.pc.Saving? && job.task.slug == slug && !job.task.settings.expiry.KeepExpiry?)
  }

  /** The expiry that its request asks for at the time the job has read. */
  function RequestedExpiry(job: Job): Option<int>
    requires (job.task.Publish? && job.pc.Committing?) || (job.task.Update? && job.pc.Saving?)
  {
    var seconds := if job.task.Publish? then job.task.input.expiresIn
                   else if job.task.settings.expiry.After? then Some(job.task.settings.expiry.seconds)
                   else None;
    if seconds.None? then None else Some(SaturatingAdd(job.pc.now, seconds.value))
  }

  predicate Applies(choice: Choice) {
    choice.Proceed? || (choice.Unsure? && choice.applied)
  }

  /** The event writes the expiry of the slug's row. */
  predicate WritesExpiry(s: State, event: Event, slug: string) {
    && event.Act? && event.id in s.jobs && SetsExpiry(s.jobs[event.id], slug)
    && Applies(event.choice)
  }

  /** The last expiry that a publication or a save has written for the slug after `before`. */
  ghost function LastExpiry(before: seq<Event>, events: seq<Event>, slug: string): Option<Option<int>> {
    if events == [] then None
    else
      var front, last := events[..|events| - 1], events[|events| - 1];
      var s := Reached(before + front);
      if WritesExpiry(s, last, slug) then Some(RequestedExpiry(s.jobs[last.id])) else LastExpiry(before, front, slug)
  }

  /** What one event makes of the expiry of a slug. */
  ghost predicate ExpiryFollows(s: State, event: Event, after: State, slug: string) {
    slug in after.rows ==>
      if WritesExpiry(s, event, slug) then after.rows[slug].expiresAt == RequestedExpiry(s.jobs[event.id])
      else slug in s.rows && after.rows[slug].expiresAt == s.rows[slug].expiresAt
  }

  lemma EventsWriteExpiries(s: State, event: Event, slug: string)
    requires Inv(s)
    ensures ExpiryFollows(s, event, Next(s, event), slug)
  {
    if event.Act? && event.id in s.jobs { CallsWriteExpiries(s, event.id, event.choice, slug); }
    else { OthersWriteNoRow(s, event); }
  }

  /** Nothing but a call of a live job writes a row. */
  lemma OthersWriteNoRow(s: State, event: Event)
    requires event.Act? ==> event.id !in s.jobs
    ensures forall slug | slug in Next(s, event).rows :: slug in s.rows && Next(s, event).rows[slug] == s.rows[slug]
  {}

  lemma CallsWriteExpiries(s: State, id: JobId, choice: Choice, slug: string)
    requires Inv(s) && id in s.jobs
    ensures ExpiryFollows(s, Act(id, choice), Step(s, id, choice), slug)
  {
    var job := s.jobs[id];
    assert Shape(job) && Knows(s, job);
    if EffectOf(s, job, choice).Some? {
      PossibleWrites(s, id, choice, slug);
    } else {
      ImpossibleWrites(s, job, choice, slug);
    }
  }

  lemma PossibleWrites(s: State, id: JobId, choice: Choice, slug: string)
    requires id in s.jobs && Shape(s.jobs[id]) && Knows(s, s.jobs[id]) && EffectOf(s, s.jobs[id], choice).Some?
    ensures ExpiryFollows(s, Act(id, choice), Step(s, id, choice), slug)
  {
    var job := s.jobs[id];
    RowFollowsOperation(s, job, choice);
    OperationsWriteExpiries(s, job, choice, slug);
    EffectWritesExpiry(s, id, choice, EffectOf(s, job, choice).value, OperationOf(s, job, choice), slug);
  }

  lemma ImpossibleWrites(s: State, job: Job, choice: Choice, slug: string)
    requires Shape(job) && EffectOf(s, job, choice).None?
    ensures !(SetsExpiry(job, slug) && Applies(choice))
  {}

  lemma EffectWritesExpiry(s: State, id: JobId, choice: Choice, e: Effect, operation: Operation, slug: string)
    requires id in s.jobs && RowFollows(operation, e) && WritesAsRequested(s, s.jobs[id], choice, operation, slug)
    ensures ExpiryFollows(s, Act(id, choice), Apply(s, id, e), slug)
  {}

  /** The row that an operation writes has the requested expiry, or the one that was there. */
  ghost predicate WritesAsRequested(s: State, job: Job, choice: Choice, operation: Operation, slug: string) {
    && (SetsExpiry(job, slug) && Applies(choice) ==>
          operation.SetSite? && operation.slug == slug && operation.row.expiresAt == RequestedExpiry(job))
    && (operation.SetSite? && operation.slug == slug && !(SetsExpiry(job, slug) && Applies(choice)) ==>
          slug in s.rows && operation.row.expiresAt == s.rows[slug].expiresAt)
  }

  lemma OperationsWriteExpiries(s: State, job: Job, choice: Choice, slug: string)
    requires Shape(job) && Knows(s, job)
    ensures WritesAsRequested(s, job, choice, OperationOf(s, job, choice), slug)
  {}

  /**
   * Over any run, whatever else happens, a row expires as the last publication or save asked that wrote its
   * expiry; if there was none since a moment, it was there at that moment and expires as it did then.
   */
  lemma {:induction false} RowsExpireAsRequested(before: seq<Event>, events: seq<Event>, slug: string)
    requires FreshRun(before + events) && slug in Reached(before + events).rows
    ensures match LastExpiry(before, events, slug)
            case Some(expiry) => Reached(before + events).rows[slug].expiresAt == expiry
            case None =>
              slug in Reached(before).rows
              && Reached(before + events).rows[slug].expiresAt == Reached(before).rows[slug].expiresAt
  {
    if events == [] {
      assert before + events == before;
    } else {
      var front, last := events[..|events| - 1], events[|events| - 1];
      assert before + events == (before + front) + [last];
      assert (before + events)[..|before + events| - 1] == before + front;
      LastEventIsFresh(before + events);
      RunAppend(Next, EMPTY_STORE, before + front, last);
      EventsWriteExpiries(Reached(before + front), last, slug);
      if !WritesExpiry(Reached(before + front), last, slug) { RowsExpireAsRequested(before, front, slug); }
    }
  }

  /** A publication or a save has written an expiry for the slug, and the last one was later than the time, or none. */
  ghost predicate WrittenLater(before: seq<Event>, events: seq<Event>, slug: string, now: int) {
    var last := LastExpiry(before, events, slug);
    last.Some? && (last.value.None? || now < last.value.value)
  }

  /** A site that was due at a time, and is there later, is still due at that time unless it was put off. */
  lemma DueUnlessWrittenLater(before: seq<Event>, events: seq<Event>, slug: string, now: int)
    requires FreshRun(before + events) && slug in Reached(before + events).rows
    requires slug in Reached(before).rows && IsExpired(Reached(before).rows[slug], now)
    ensures IsExpired(Reached(before + events).rows[slug], now) <==> !WrittenLater(before, events, slug, now)
  {
    RowsExpireAsRequested(before, events, slug);
  }
}
