/** Where each call of a job leads, call by call. */
module Steps {
  import opened Histories
  import opened Invariants
  import opened Machine
  import opened Names
  import opened NewSites
  import opened SiteSettings
  import opened Trees
  import opened Wrappers

  predicate StandsAt(s: State, id: JobId, pc: Pc) {
    id in s.jobs && s.jobs[id].pc == pc && PcFits(s.jobs[id].task, pc)
  }

  /** Only the job itself moves on. */
  function To(s: State, id: JobId, pc: Pc): State
    requires id in s.jobs
  {
    s.(jobs := s.jobs[id := s.jobs[id].(pc := pc)])
  }

  // ---------- Staging ----------

  /** Where an attempt at a staging name leads. */
  lemma OpeningTakes(s: State, id: JobId, name: string)
    requires id in s.jobs && s.jobs[id].pc.Opening? && Stages(s.jobs[id].task)
    requires ValidSlug(name) && (name in s.tmp || !Awaited(s, name))
    ensures var job := s.jobs[id];
      Takes(s, id, Pick(name),
            if name !in s.tmp
            then s.(tmp := s.tmp[name := EMPTY_DIRECTORY],
                    jobs := s.jobs[id := Job(job.task, Writing(0), Ownership(name, false, None, false))])
            else if job.pc.attempt + 1 < MAX_STAGING_ATTEMPTS then To(s, id, Opening(job.pc.attempt + 1))
            else s.(jobs := s.jobs - {id}))
  {
    TakesStep(s, id, Pick(name));
  }

  lemma OpeningFails(s: State, id: JobId)
    requires id in s.jobs && s.jobs[id].pc.Opening? && Stages(s.jobs[id].task)
    ensures Takes(s, id, Fail, s.(jobs := s.jobs - {id}))
  {
    TakesStep(s, id, Fail);
  }

  /** Where one file leads: to the next one, or to giving up on what was left. */
  lemma WritingTakes(s: State, id: JobId, rest: Tree)
    requires id in s.jobs && s.jobs[id].pc.Writing? && Stages(s.jobs[id].task)
    requires s.jobs[id].pc.next < |s.jobs[id].task.input.files| && s.jobs[id].content.staging in s.tmp
    ensures var job := s.jobs[id]; var staging, next := job.content.staging, job.pc.next;
      && Takes(s, id, Spoil(rest), To(s, id, Discarding).(tmp := s.tmp[staging := rest]))
      && Takes(s, id, Proceed,
               match WriteOne(s.tmp[staging], job.task.input.files[next])
               case Some(t) => To(s, id, Writing(next + 1)).(tmp := s.tmp[staging := t])
               case None => To(s, id, Discarding))
  {
    TakesStep(s, id, Spoil(rest));
    TakesStep(s, id, Proceed);
  }

  lemma WrittenTakes(s: State, id: JobId)
    requires id in s.jobs && s.jobs[id].pc.Writing? && Stages(s.jobs[id].task)
    requires s.jobs[id].pc.next >= |s.jobs[id].task.input.files|
    ensures Takes(s, id, Proceed, To(s, id, Waiting))
  {
    TakesStep(s, id, Proceed);
  }

  // ---------- Taking the lock, the row, the clock ----------

  function LockedBy(s: State, id: JobId): State
    requires id in s.jobs
  {
    To(s, id, if s.jobs[id].task.Publish? then Dating else Finding).(holder := Some(id))
  }

  lemma AwaitTakes(s: State, id: JobId)
    requires id in s.jobs && s.jobs[id].pc.Waiting? && s.holder.None?
    ensures Takes(s, id, Proceed, LockedBy(s, id))
  {
    TakesStep(s, id, Proceed);
  }

  /** Where a job goes from a row that exists. */
  function Found(task: Task): Pc
    requires !task.Publish?
  {
    match task
    case Replace(_, _) => Dating
    case Update(_, _) => Checking
    case Delete(_) => DeletingRow
    case Archive(_) => Packing
  }

  lemma FindTakes(s: State, id: JobId)
    requires StandsAt(s, id, Finding)
    ensures var task := s.jobs[id].task;
      && Takes(s, id, Proceed, To(s, id, if Slug(task) in s.rows then Found(task) else Ending(task)))
      && Takes(s, id, Fail, To(s, id, Ending(task)))
  {
    TakesStep(s, id, Proceed);
    TakesStep(s, id, Fail);
  }

  /** Where a job goes from a time it could read. */
  function Dated(task: Task, now: int): Pc {
    if task.Publish? then Choosing(now, 0) else if task.Replace? then Parking(now) else Saving(now)
  }

  lemma DateTakes(s: State, id: JobId, now: int)
    requires StandsAt(s, id, Dating)
    ensures Takes(s, id, At(now), To(s, id, Dated(s.jobs[id].task, now)))
    ensures Takes(s, id, Fail, To(s, id, Ending(s.jobs[id].task)))
  {
    TakesStep(s, id, At(now));
    TakesStep(s, id, Fail);
  }

  // ---------- Publication ----------

  lemma ChooseTakes(s: State, id: JobId, slug: string)
    requires id in s.jobs && s.jobs[id].pc.Choosing? && s.jobs[id].task.Publish? && ValidSlug(slug)
    requires var requested := s.jobs[id].task.input.slug; requested.Some? ==> requested.value == slug
    ensures Takes(s, id, Pick(slug), To(s, id, Inserting(s.jobs[id].pc.now, s.jobs[id].pc.attempt, slug)))
  {
    TakesStep(s, id, Pick(slug));
  }

  lemma ChooseFails(s: State, id: JobId)
    requires id in s.jobs && s.jobs[id].pc.Choosing? && s.jobs[id].task.Publish?
    ensures Takes(s, id, Fail, To(s, id, Unreserving))
  {
    TakesStep(s, id, Fail);
  }

  lemma InsertTakes(s: State, id: JobId)
    requires id in s.jobs && s.jobs[id].pc.Inserting? && s.jobs[id].task.Publish?
    ensures var pc := s.jobs[id].pc;
      && Takes(s, id, Proceed, To(s, id, if pc.slug in s.rows then Declining(pc.now, pc.attempt)
                                         else Reserving(pc.now, pc.attempt, pc.slug)))
      && Takes(s, id, Fail, To(s, id, RollingBack))
  {
    TakesStep(s, id, Proceed);
    TakesStep(s, id, Fail);
  }

  lemma ReserveTakes(s: State, id: JobId)
    requires id in s.jobs && s.jobs[id].pc.Reserving? && s.jobs[id].task.Publish?
    ensures var job, pc := s.jobs[id], s.jobs[id].pc;
      && Takes(s, id, Fail, To(s, id, RollingBack))
      && Takes(s, id, Proceed,
               if pc.slug in s.sites then To(s, id, Declining(pc.now, pc.attempt))
               else s.(sites := s.sites[pc.slug := EMPTY_DIRECTORY],
                       jobs := s.jobs[id := Job(job.task, Installing(pc.now, pc.slug),
                                                job.content.(installed := Some(pc.slug)))]))
  {
    TakesStep(s, id, Proceed);
    TakesStep(s, id, Fail);
  }

  /** Where a conflict leads: to the next candidate, or to cleanup if there is none. */
  function AfterConflict(input: NewSite, now: int, attempt: nat): Pc {
    if input.slug.Some? || attempt + 1 >= MAX_SLUG_ATTEMPTS then Unreserving else Choosing(now, attempt + 1)
  }

  lemma DeclineTakes(s: State, id: JobId)
    requires id in s.jobs && s.jobs[id].pc.Declining? && s.jobs[id].task.Publish?
    ensures Takes(s, id, Proceed, To(s, id, AfterConflict(s.jobs[id].task.input, s.jobs[id].pc.now, s.jobs[id].pc.attempt)))
    ensures Takes(s, id, Fail, To(s, id, Unreserving))
  {
    TakesStep(s, id, Proceed);
    TakesStep(s, id, Fail);
  }

  lemma InstallTakes(s: State, id: JobId)
    requires id in s.jobs && s.jobs[id].pc.Installing? && s.jobs[id].task.Publish?
    requires s.jobs[id].content.staging in s.tmp && FreeFor(s.sites, s.jobs[id].pc.slug)
    ensures var job, pc, staging := s.jobs[id], s.jobs[id].pc, s.jobs[id].content.staging;
      && Takes(s, id, Fail, To(s, id, RollingBack))
      && Takes(s, id, Proceed,
               s.(sites := s.sites[pc.slug := s.tmp[staging]], tmp := s.tmp - {staging},
                  jobs := s.jobs[id := Job(job.task, Committing(pc.now, pc.slug), job.content.(stagingRemoved := true))]))
  {
    TakesStep(s, id, Proceed);
    TakesStep(s, id, Fail);
  }

  lemma CommitTakes(s: State, id: JobId, applied: bool)
    requires id in s.jobs && s.jobs[id].pc.Committing? && s.jobs[id].task.Publish?
    ensures var job, slug := s.jobs[id], s.jobs[id].pc.slug;
      var attempted := s.(jobs := s.jobs[id := Job(job.task, Unreserving, job.content.(preserveInstalled := true))]);
      var committed := attempted.(rows := s.rows[slug := NewRow(job.task.input, job.pc.now)], stale := s.stale - {slug});
      && Takes(s, id, Proceed, committed)
      && Takes(s, id, Unsure(applied), if applied then committed else attempted)
  {
    TakesStep(s, id, Proceed);
    TakesStep(s, id, Unsure(applied));
  }

  lemma RollBackTakes(s: State, id: JobId, choice: Choice)
    requires id in s.jobs && s.jobs[id].pc.RollingBack? && s.jobs[id].task.Publish? && (choice.Proceed? || choice.Fail?)
    ensures Takes(s, id, choice, To(s, id, Unreserving))
  {
    TakesStep(s, id, choice);
  }

  // ---------- Replacement ----------

  lemma ParkTakes(s: State, id: JobId)
    requires id in s.jobs && s.jobs[id].pc.Parking? && s.jobs[id].task.Replace?
    requires s.jobs[id].content.staging in s.tmp && s.jobs[id].task.slug in s.sites
    ensures var job := s.jobs[id]; var slug, parked := job.task.slug, ParkedName(job.content);
      && Takes(s, id, Fail, To(s, id, Unreserving))
      && Takes(s, id, Proceed,
               if FreeFor(s.tmp, parked)
               then To(s, id, Promoting(job.pc.now)).(tmp := s.tmp[parked := s.sites[slug]], sites := s.sites - {slug})
               else To(s, id, Unreserving))
  {
    TakesStep(s, id, Proceed);
    TakesStep(s, id, Fail);
  }

  lemma PromoteTakes(s: State, id: JobId)
    requires id in s.jobs && s.jobs[id].pc.Promoting? && s.jobs[id].task.Replace?
    requires s.jobs[id].content.staging in s.tmp && FreeFor(s.sites, s.jobs[id].task.slug)
    ensures var job := s.jobs[id]; var slug, staging := job.task.slug, job.content.staging;
      && Takes(s, id, Fail, To(s, id, Unparking))
      && Takes(s, id, Proceed,
               s.(sites := s.sites[slug := s.tmp[staging]], tmp := s.tmp - {staging},
                  jobs := s.jobs[id := Job(job.task, Recording(job.pc.now), job.content.(stagingRemoved := true))]))
  {
    TakesStep(s, id, Proceed);
    TakesStep(s, id, Fail);
  }

  lemma UnparkTakes(s: State, id: JobId)
    requires id in s.jobs && s.jobs[id].pc.Unparking? && s.jobs[id].task.Replace?
    requires ParkedName(s.jobs[id].content) in s.tmp && FreeFor(s.sites, s.jobs[id].task.slug)
    ensures var job := s.jobs[id]; var slug, parked := job.task.slug, ParkedName(job.content);
      Takes(s, id, Proceed, To(s, id, Unreserving).(sites := s.sites[slug := s.tmp[parked]], tmp := s.tmp - {parked}))
  {
    TakesStep(s, id, Proceed);
  }

  lemma RecordTakes(s: State, id: JobId)
    requires id in s.jobs && s.jobs[id].pc.Recording? && s.jobs[id].task.Replace? && s.jobs[id].task.slug in s.rows
    ensures var job := s.jobs[id]; var slug := job.task.slug;
      && Takes(s, id, Fail, To(s, id, Withdrawing))
      && Takes(s, id, Proceed,
               To(s, id, DroppingParked)
               .(rows := s.rows[slug := ReplacedRow(s.rows[slug], job.task.input, job.pc.now)], stale := s.stale - {slug}))
  {
    TakesStep(s, id, Proceed);
    TakesStep(s, id, Fail);
  }

  lemma WithdrawTakes(s: State, id: JobId)
    requires id in s.jobs && s.jobs[id].pc.Withdrawing? && s.jobs[id].task.Replace?
    requires s.jobs[id].task.slug in s.sites && FreeFor(s.tmp, s.jobs[id].content.staging)
    ensures var job := s.jobs[id]; var slug, staging := job.task.slug, job.content.staging;
      Takes(s, id, Proceed, To(s, id, Restoring).(tmp := s.tmp[staging := s.sites[slug]], sites := s.sites - {slug}))
  {
    TakesStep(s, id, Proceed);
  }

  lemma RestoreTakes(s: State, id: JobId)
    requires id in s.jobs && s.jobs[id].pc.Restoring? && s.jobs[id].task.Replace?
    requires ParkedName(s.jobs[id].content) in s.tmp && FreeFor(s.sites, s.jobs[id].task.slug)
    ensures var job := s.jobs[id]; var slug, parked := job.task.slug, ParkedName(job.content);
      Takes(s, id, Proceed,
            s.(sites := s.sites[slug := s.tmp[parked]], tmp := s.tmp - {parked},
               jobs := s.jobs[id := Job(job.task, Unreserving, job.content.(stagingRemoved := false))]))
  {
    TakesStep(s, id, Proceed);
  }

  // ---------- Settings, deletion, download ----------

  /** Keeping a password needs a row that has one. */
  predicate AccessAllowed(row: Row, settings: Settings) {
    settings.access.KeepAccess? ==> CurrentPassword(row).Some?
  }

  /** The settings' entry is a regular top-level file of the site. */
  predicate EntryExists(sites: map<string, Tree>, slug: string, settings: Settings) {
    slug in sites && IsFile(sites[slug], [settings.entry])
  }

  /** The settings pass both checks. */
  predicate Passes(s: State, slug: string, settings: Settings)
    requires slug in s.rows
  {
    AccessAllowed(s.rows[slug], settings) && EntryExists(s.sites, slug, settings)
  }

  lemma CheckTakes(s: State, id: JobId)
    requires StandsAt(s, id, Checking) && s.jobs[id].task.slug in s.rows
    ensures var slug, settings := s.jobs[id].task.slug, s.jobs[id].task.settings;
      && Takes(s, id, Fail, To(s, id, Releasing))
      && Takes(s, id, Proceed,
               To(s, id, if Passes(s, slug, settings) then Dating else Releasing))
  {
    TakesStep(s, id, Proceed);
    TakesStep(s, id, Fail);
  }

  lemma SaveTakes(s: State, id: JobId, applied: bool)
    requires id in s.jobs && s.jobs[id].pc.Saving? && s.jobs[id].task.Update? && s.jobs[id].task.slug in s.rows
    ensures var job, slug := s.jobs[id], s.jobs[id].task.slug;
      var saved := To(s, id, Releasing).(rows := s.rows[slug := UpdatedRow(s.rows[slug], job.task.settings, job.pc.now)]);
      && Takes(s, id, Proceed, saved)
      && Takes(s, id, Unsure(applied), if applied then saved else To(s, id, Releasing))
  {
    TakesStep(s, id, Proceed);
    TakesStep(s, id, Unsure(applied));
  }

  lemma DeleteRowTakes(s: State, id: JobId, applied: bool)
    requires StandsAt(s, id, DeletingRow)
    ensures var slug := s.jobs[id].task.slug;
      && Takes(s, id, Proceed, To(s, id, DeletingContent).(rows := s.rows - {slug}, stale := s.stale - {slug}))
      && Takes(s, id, Unsure(applied),
               if applied then To(s, id, Releasing).(rows := s.rows - {slug}, stale := s.stale - {slug})
               else To(s, id, Releasing))
  {
    TakesStep(s, id, Proceed);
    TakesStep(s, id, Unsure(applied));
  }

  lemma DeleteContentTakes(s: State, id: JobId)
    requires StandsAt(s, id, DeletingContent)
    ensures Takes(s, id, Proceed, To(s, id, Releasing).(sites := s.sites - {s.jobs[id].task.slug}))
    ensures Takes(s, id, Fail, To(s, id, Releasing))
  {
    TakesStep(s, id, Proceed);
    TakesStep(s, id, Fail);
  }

  lemma DeletePartTakes(s: State, id: JobId, rest: Tree)
    requires StandsAt(s, id, DeletingContent) && s.jobs[id].task.slug in s.sites
    ensures Takes(s, id, Leave(rest), To(s, id, DeletingContent).(sites := s.sites[s.jobs[id].task.slug := rest]))
  {
    TakesStep(s, id, Leave(rest));
  }

  lemma PackTakes(s: State, id: JobId, choice: Choice)
    requires StandsAt(s, id, Packing) && (choice.Proceed? || choice.Fail?)
    ensures Takes(s, id, choice, To(s, id, Releasing))
  {
    TakesStep(s, id, choice);
  }

  // ---------- Cleanup ----------

  lemma UnreserveTakes(s: State, id: JobId)
    requires StandsAt(s, id, Unreserving)
    requires Unused(s.jobs[id].content) ==> OwnReservation(s, s.jobs[id].content.installed.value)
    ensures var content := s.jobs[id].content;
      && Takes(s, id, Fail, To(s, id, Unstaging))
      && Takes(s, id, Proceed,
               if Unused(content) then To(s, id, Unstaging).(sites := s.sites - {content.installed.value})
               else To(s, id, Unstaging))
  {
    TakesStep(s, id, Proceed);
    TakesStep(s, id, Fail);
  }

  lemma UnstageSkips(s: State, id: JobId)
    requires StandsAt(s, id, Unstaging)
    ensures Takes(s, id, if s.jobs[id].content.stagingRemoved then Proceed else Fail, To(s, id, Releasing))
  {
    TakesStep(s, id, if s.jobs[id].content.stagingRemoved then Proceed else Fail);
  }

  lemma ReleaseTakes(s: State, id: JobId)
    requires StandsAt(s, id, Releasing)
    ensures Takes(s, id, Proceed, s.(jobs := s.jobs - {id}, holder := None))
  {
    TakesStep(s, id, Proceed);
  }

  // ---------- Recursive removal in `tmp` ----------

  /** The directory in `tmp` that a job is recursively removing. */
  function Removing(job: Job): Option<string> {
    match job.pc
    case Discarding => Some(job.content.staging)
    case DroppingParked => Some(ParkedName(job.content))
    case Unstaging => if job.content.stagingRemoved then None else Some(job.content.staging)
    case _ => None
  }

  /** What becomes of the job after the removal, whether or not it succeeded. */
  function Removed(job: Job): Option<Job> {
    match job.pc
    case DroppingParked => Some(job.(pc := Unreserving))
    case Unstaging => Some(job.(pc := Releasing))
    case _ => None
  }

  function Updated(jobs: map<JobId, Job>, id: JobId, next: Option<Job>): map<JobId, Job> {
    if next.Some? then jobs[id := next.value] else jobs - {id}
  }

  lemma RemovalTakes(s: State, id: JobId)
    requires id in s.jobs && StandsAt(s, id, s.jobs[id].pc) && Removing(s.jobs[id]).Some?
    ensures var job := s.jobs[id]; var jobs := Updated(s.jobs, id, Removed(job));
      && Takes(s, id, Proceed, s.(tmp := s.tmp - {Removing(job).value}, jobs := jobs))
      && Takes(s, id, Fail, s.(jobs := jobs))
  {
    TakesStep(s, id, Proceed);
    TakesStep(s, id, Fail);
  }

  lemma PartialRemovalTakes(s: State, id: JobId, rest: Tree)
    requires id in s.jobs && StandsAt(s, id, s.jobs[id].pc) && Removing(s.jobs[id]).Some?
    ensures var job := s.jobs[id];
      Takes(s, id, Leave(rest), s.(tmp := s.tmp[Removing(job).value := rest], jobs := Updated(s.jobs, id, Some(job))))
  {
    TakesStep(s, id, Leave(rest));
  }
}
