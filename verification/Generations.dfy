/** Viewer grants over the life of a store: a password generation that was given up never comes back. */
module Generations {
  import opened Invariants
  import opened Machine
  import opened Passwords
  import opened Protocol
  import opened Runs
  import opened ViewerTokens
  import opened Wrappers

  // ---------- Who carries a salt ----------

  function SaltOf(password: Option<Password>): Option<string> {
    if password.None? then None else Some(password.value.saltId)
  }

  /** The salt that grants for a slug must carry, if the slug is protected. */
  function SlugSalt(s: State, slug: string): Option<string> {
    if slug in s.rows then SaltOf(CurrentPassword(s.rows[slug])) else None
  }

  /** The salt of the password that a request brings along. */
  function TaskSalt(task: Task): Option<string> {
    match task
    case Publish(input) => SaltOf(input.password)
    case Update(_, settings) => if settings.access.SetAccess? then Some(settings.access.password.saltId) else None
    case _ => None
  }

  function StartSalt(event: Event): Option<string> {
    if event.Start? then TaskSalt(event.task) else None
  }

  /** The job has yet to write the row it was asked for. */
  predicate Pending(job: Job) {
    match job.pc
    case Opening(_) | Writing(_) | Waiting | Finding | Dating | Checking | Saving(_) => true
    case Choosing(_, _) | Inserting(_, _, _) | Reserving(_, _, _) | Declining(_, _)
       | Installing(_, _) | Committing(_, _) => true
    case _ => false
  }

  predicate JobCarries(s: State, id: JobId, salt: string) {
    id in s.jobs && Pending(s.jobs[id]) && TaskSalt(s.jobs[id].task) == Some(salt)
  }

  /** No row and no request on its way has the salt. */
  ghost predicate Extinct(s: State, salt: string) {
    && (forall slug :: SlugSalt(s, slug) != Some(salt))
    && (forall id :: !JobCarries(s, id, salt))
  }

  /** Only the row of one slug has the salt, if anything does. */
  ghost predicate OnlyAt(s: State, slug: string, salt: string) {
    && (forall other | other != slug :: SlugSalt(s, other) != Some(salt))
    && (forall id :: !JobCarries(s, id, salt))
  }

  /** No two rows or pending requests share a salt. */
  ghost predicate Exclusive(s: State, salt: string) {
    && (forall a, b | SlugSalt(s, a) == Some(salt) && SlugSalt(s, b) == Some(salt) :: a == b)
    && (forall a, b | JobCarries(s, a, salt) && JobCarries(s, b, salt) :: a == b)
    && (forall slug, id | JobCarries(s, id, salt) :: SlugSalt(s, slug) != Some(salt))
  }

  /** Freshly salted requests: no two of a run bring the same salt. */
  ghost predicate DistinctSalts(events: seq<Event>) {
    forall i, j | 0 <= i < j < |events| && StartSalt(events[i]).Some? :: StartSalt(events[i]) != StartSalt(events[j])
  }

  ghost predicate Brings(events: seq<Event>, salt: string) {
    exists event <- events :: StartSalt(event) == Some(salt)
  }

  // ---------- One event ----------

  /** A written row has no password, the one it had, or that of the request, which is then done with. */
  ghost predicate SaltsFollow(s: State, job: Job, e: Effect) {
    && (e.row.Write? ==>
          var salt := SaltOf(CurrentPassword(e.row.value));
          || salt.None?
          || salt == SlugSalt(s, e.row.name)
          || (Pending(job) && salt == TaskSalt(job.task) && (e.job.Some? ==> !Pending(e.job.value))))
    && (e.job.Some? ==> e.job.value.task == job.task && (Pending(e.job.value) ==> Pending(job)))
  }

  lemma EffectFollowsSalts(s: State, job: Job, choice: Choice)
    requires EffectOf(s, job, choice).Some?
    ensures SaltsFollow(s, job, EffectOf(s, job, choice).value)
  {
    if job.pc.Committing? || job.pc.Recording? || job.pc.Saving? {
      WriterFollowsSalts(s, job, choice);
    } else if Pending(job) {
      PendingFollowsSalts(s, job, choice);
    } else {
      OthersFollowSalts(s, job, choice);
    }
  }

  lemma WriterFollowsSalts(s: State, job: Job, choice: Choice)
    requires EffectOf(s, job, choice).Some? && (job.pc.Committing? || job.pc.Recording? || job.pc.Saving?)
    ensures SaltsFollow(s, job, EffectOf(s, job, choice).value)
  {}

  lemma PendingFollowsSalts(s: State, job: Job, choice: Choice)
    requires EffectOf(s, job, choice).Some? && Pending(job) && !job.pc.Committing? && !job.pc.Saving?
    ensures SaltsFollow(s, job, EffectOf(s, job, choice).value)
  {}

  lemma OthersFollowSalts(s: State, job: Job, choice: Choice)
    requires EffectOf(s, job, choice).Some? && !Pending(job) && !job.pc.Recording?
    ensures SaltsFollow(s, job, EffectOf(s, job, choice).value)
  {
    if job.task.Replace? && (job.pc.Parking? || Swapping(job.pc)) { SwapFollowsSalts(s, job, choice); }
  }

  lemma SwapFollowsSalts(s: State, job: Job, choice: Choice)
    requires EffectOf(s, job, choice).Some? && !Pending(job) && !job.pc.Recording?
    requires job.task.Replace? && (job.pc.Parking? || Swapping(job.pc))
    ensures SaltsFollow(s, job, EffectOf(s, job, choice).value)
  {}

  /** What an event can do to the carriers of a salt. */
  ghost predicate CarriersFollow(s: State, event: Event, after: State, salt: string) {
    // A row that newly has the salt got it from a pending request, which then no longer carries it.
    && (forall slug | SlugSalt(after, slug) == Some(salt) && SlugSalt(s, slug) != Some(salt) ::
          event.Act? && JobCarries(s, event.id, salt) && !JobCarries(after, event.id, salt))
    // At most one row changes.
    && (forall a, b | SlugSalt(after, a) != SlugSalt(s, a) && SlugSalt(after, b) != SlugSalt(s, b)
                      && SlugSalt(after, a).Some? && SlugSalt(after, b).Some? :: a == b)
    // A request that newly carries the salt was just started with it.
    && (forall id | JobCarries(after, id, salt) && !JobCarries(s, id, salt) :: event.Start? && event.id == id)
    && (forall id | JobCarries(after, id, salt) && !JobCarries(s, id, salt) :: StartSalt(event) == Some(salt))
  }

  lemma StepMovesSalts(s: State, id: JobId, choice: Choice, salt: string)
    ensures CarriersFollow(s, Act(id, choice), Step(s, id, choice), salt)
  {
    if id in s.jobs && EffectOf(s, s.jobs[id], choice).Some? {
      EffectFollowsSalts(s, s.jobs[id], choice);
      EffectMovesSalts(s, id, choice, EffectOf(s, s.jobs[id], choice).value, salt);
    }
  }

  lemma EffectMovesSalts(s: State, id: JobId, choice: Choice, e: Effect, salt: string)
    requires id in s.jobs && SaltsFollow(s, s.jobs[id], e)
    ensures CarriersFollow(s, Act(id, choice), Apply(s, id, e), salt)
  {}

  lemma EventMovesSalts(s: State, event: Event, salt: string)
    ensures CarriersFollow(s, event, Next(s, event), salt)
  {
    match event
    case Start(id, task) =>
    case Act(id, choice) => StepMovesSalts(s, id, choice, salt);
    case Crash =>
    case Boot(decision) => BootMovesSalts(s, decision, salt);
  }

  lemma BootMovesSalts(s: State, decision: BootChoice, salt: string)
    ensures CarriersFollow(s, Boot(decision), BootStep(s, decision), salt)
  {}

  lemma StaysExclusive(s: State, event: Event, salt: string)
    requires Exclusive(s, salt) && (StartSalt(event) == Some(salt) ==> Extinct(s, salt))
    ensures Exclusive(Next(s, event), salt)
  {
    EventMovesSalts(s, event, salt);
  }

  lemma StaysOnlyAt(s: State, event: Event, slug: string, salt: string)
    requires OnlyAt(s, slug, salt) && StartSalt(event) != Some(salt)
    ensures OnlyAt(Next(s, event), slug, salt)
  {
    EventMovesSalts(s, event, salt);
  }

  lemma StaysExtinct(s: State, event: Event, salt: string)
    requires Extinct(s, salt) && StartSalt(event) != Some(salt)
    ensures Extinct(Next(s, event), salt)
  {
    EventMovesSalts(s, event, salt);
  }

  // ---------- Runs ----------

  /** With fresh salts, a salt is carried at most once. */
  lemma {:induction false} SaltsAreCarriedOnce(events: seq<Event>, salt: string)
    requires DistinctSalts(events)
    ensures Exclusive(Reached(events), salt)
  {
    if events != [] {
      var front, last := events[..|events| - 1], events[|events| - 1];
      assert events == front + [last];
      SaltsAreCarriedOnce(front, salt);
      if StartSalt(last) == Some(salt) {
        FirstBringer(front, last, salt);
        RemainsExtinct(EMPTY_STORE, front, salt);
      }
      StaysExclusive(Reached(front), last, salt);
    }
  }

  lemma FirstBringer(front: seq<Event>, last: Event, salt: string)
    requires DistinctSalts(front + [last]) && StartSalt(last) == Some(salt)
    ensures !Brings(front, salt)
  {
    var events := front + [last];
    forall event <- front ensures StartSalt(event) != Some(salt) {
      var i :| 0 <= i < |front| && front[i] == event;
      assert StartSalt(events[i]).Some? ==> StartSalt(events[i]) != StartSalt(events[|front|]);
    }
  }

  lemma {:induction false} RemainsOnlyAt(s: State, events: seq<Event>, slug: string, salt: string)
    requires OnlyAt(s, slug, salt) && !Brings(events, salt)
    ensures OnlyAt(Run(Next, s, events), slug, salt)
  {
    if events != [] {
      var front, last := events[..|events| - 1], events[|events| - 1];
      assert last in events && forall event <- front :: event in events;
      RemainsOnlyAt(s, front, slug, salt);
      StaysOnlyAt(Run(Next, s, front), last, slug, salt);
    }
  }

  lemma {:induction false} RemainsExtinct(s: State, events: seq<Event>, salt: string)
    requires Extinct(s, salt) && !Brings(events, salt)
    ensures Extinct(Run(Next, s, events), salt)
  {
    if events != [] {
      var front, last := events[..|events| - 1], events[|events| - 1];
      assert last in events && forall event <- front :: event in events;
      RemainsExtinct(s, front, salt);
      StaysExtinct(Run(Next, s, front), last, salt);
    }
  }

  /** A salt that a row has was brought before, and is not brought again. */
  lemma CarriedIsNotBroughtAgain(first: seq<Event>, rest: seq<Event>, slug: string, salt: string)
    requires DistinctSalts(first + rest) && SlugSalt(Reached(first), slug) == Some(salt)
    ensures !Brings(rest, salt) && OnlyAt(Reached(first), slug, salt)
  {
    var events := first + rest;
    forall i, j | 0 <= i < j < |first| && StartSalt(first[i]).Some? ensures StartSalt(first[i]) != StartSalt(first[j]) {
      assert StartSalt(events[i]) != StartSalt(events[j]);
    }
    SaltsAreCarriedOnce(first, salt);
    if !Brings(first, salt) { RemainsExtinct(EMPTY_STORE, first, salt); }
    assert Brings(first, salt);
    var brought :| brought in first && StartSalt(brought) == Some(salt);
    var i :| 0 <= i < |first| && first[i] == brought;
    forall event <- rest ensures StartSalt(event) != Some(salt) {
      var j :| 0 <= j < |rest| && rest[j] == event;
      assert StartSalt(events[i]) != StartSalt(events[|first| + j]);
    }
  }

  /**
   * Once a slug has given up a password generation, by a new password, by opening, by deletion or by
   * losing its row at boot, no later state of any run protects any slug with that generation.
   */
  lemma GenerationsNeverReturn(first: seq<Event>, middle: seq<Event>, last: seq<Event>, slug: string, salt: string)
    requires DistinctSalts(first + (middle + last))
    requires SlugSalt(Reached(first), slug) == Some(salt)
    requires SlugSalt(Reached(first + middle), slug) != Some(salt)
    ensures Extinct(Reached(first + (middle + last)), salt)
  {
    CarriedIsNotBroughtAgain(first, middle + last, slug, salt);
    assert forall event <- middle :: event in middle + last;
    assert forall event <- last :: event in middle + last;
    RunConcat(Next, EMPTY_STORE, first, middle);
    RemainsOnlyAt(Reached(first), middle, slug, salt);
    assert first + (middle + last) == (first + middle) + last;
    RunConcat(Next, EMPTY_STORE, first + middle, last);
    RemainsExtinct(Reached(first + middle), last, salt);
  }

  /** No grant issued under a generation that was given up ever opens the slug again. */
  lemma GrantsNeverRevive(first: seq<Event>, middle: seq<Event>, last: seq<Event>, slug: string,
                          payload: Option<string>, old_: Password, new_: Password, now: nat, later: nat)
    requires DistinctSalts(first + (middle + last)) && ValidPassword(old_) && ValidPassword(new_)
    requires SlugSalt(Reached(first), slug) == Some(old_.saltId) && VerifyViewerGrantAt(payload, slug, old_, now)
    requires SlugSalt(Reached(first + middle), slug) != Some(old_.saltId)
    requires SlugSalt(Reached(first + (middle + last)), slug) == Some(new_.saltId)
    ensures !VerifyViewerGrantAt(payload, slug, new_, later)
  {
    GenerationsNeverReturn(first, middle, last, slug, old_.saltId);
    if VerifyViewerGrantAt(payload, slug, new_, later) {
      GrantsBindGenerations(payload, slug, old_, new_, now, later);
    }
  }

  // ---------- What keeps a grant ----------

  /** A job that may end grants: it opens a site, sets its password, or adds or removes a row. */
  predicate MayEndGrants(job: Job) {
    match job.task
    case Publish(_) => true
    case Replace(_, _) => false
    case Update(_, settings) => !settings.access.KeepAccess?
    case Delete(_) => true
    case Archive(_) => false
  }

  /** The event does not touch the slug's access: other slugs, replacements and kept passwords are fine. */
  predicate Spares(s: State, event: Event, slug: string) {
    match event
    case Act(id, _) => id in s.jobs && MayEndGrants(s.jobs[id]) ==> slug !in Targets(s.jobs[id])
    case Boot(DropRow(dropped)) => dropped != slug
    case _ => true
  }

  /** The slug is protected by exactly this password. */
  predicate ProtectedBy(s: State, slug: string, password: Password) {
    slug in s.rows && CurrentPassword(s.rows[slug]) == Some(password)
  }

  lemma ReplaceAndKeepSpare(s: State, job: Job, choice: Choice)
    requires EffectOf(s, job, choice).Some? && !MayEndGrants(job)
    ensures var row := EffectOf(s, job, choice).value.row;
      && !row.Erase?
      && (row.Write? ==> row.name in s.rows && CurrentPassword(row.value) == CurrentPassword(s.rows[row.name]))
  {}

  lemma OthersSpare(s: State, job: Job, choice: Choice)
    requires EffectOf(s, job, choice).Some?
    ensures Touched(EffectOf(s, job, choice).value.row) <= Targets(job)
  {}

  lemma StepSpares(s: State, id: JobId, choice: Choice, slug: string, password: Password)
    requires ProtectedBy(s, slug, password) && Spares(s, Act(id, choice), slug)
    ensures ProtectedBy(Step(s, id, choice), slug, password)
  {
    if id in s.jobs && EffectOf(s, s.jobs[id], choice).Some? {
      if MayEndGrants(s.jobs[id]) {
        OthersSpare(s, s.jobs[id], choice);
      } else {
        ReplaceAndKeepSpare(s, s.jobs[id], choice);
      }
    }
  }

  lemma EventSpares(s: State, event: Event, slug: string, password: Password)
    requires ProtectedBy(s, slug, password) && Spares(s, event, slug)
    ensures ProtectedBy(Next(s, event), slug, password)
  {
    if event.Act? { StepSpares(s, event.id, event.choice, slug, password); }
  }

  /**
   * Over any run that does not touch the slug's access, whatever else happens to it, the same grants
   * verify at the same times.
   */
  lemma GrantsLast(s: State, events: seq<Event>, slug: string, password: Password)
    requires ProtectedBy(s, slug, password)
    requires Admissible(Next, s, events, (state: State, event: Event) => Spares(state, event, slug))
    ensures ProtectedBy(Run(Next, s, events), slug, password)
  {
    var spares := (state: State, event: Event) => Spares(state, event, slug);
    var protected := (state: State) => ProtectedBy(state, slug, password);
    forall state, event | protected(state) && spares(state, event) ensures protected(Next(state, event)) {
      EventSpares(state, event, slug, password);
    }
    Invariance(Next, s, events, spares, protected);
  }
}
