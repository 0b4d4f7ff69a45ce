/** What every step of every interleaving keeps, crashes and boots included. */
module Invariants {
  import opened Archives
  import opened Machine
  import opened Names
  import opened NewSites
  import opened Trees
  import opened Wrappers

  // ---------- Whole content and rows that describe it ----------

  /** A validated file set whose staging produced exactly this tree. */
  ghost predicate Staged(files: seq<SiteFile>, tree: Tree) {
    && 1 <= |files| <= MAX_SITE_FILES
    && ValidNames(files) && DistinctNames(files) && TotalSize(files) <= I64_MAX
    && WriteAll(files) == Some(tree)
  }

  /** One whole validated file set, never a partial one or an empty reservation. */
  ghost predicate Whole(tree: Tree) {
    exists files :: Staged(files, tree)
  }

  ghost predicate Describes(row: Row, files: seq<SiteFile>) {
    row.fileCount == |files| && row.sizeBytes == TotalSize(files) && TopLevelFile(files, row.entry)
  }

  /** The directory is one whole file set and the row's counts and entry are that set's. */
  ghost predicate Consistent(row: Row, tree: Tree) {
    exists files :: Staged(files, tree) && Describes(row, files)
  }

  // ---------- Ownership ----------

  /** Between parking the served directory and giving it up or restoring it. */
  predicate Swapping(pc: Pc) {
    pc.Promoting? || pc.Unparking? || pc.Recording? || pc.Withdrawing? || pc.Restoring?
  }

  /** The staging name is still the job's own: it exists, or a withdrawal may bring it back. */
  predicate ClaimsStaging(job: Job) {
    Stages(job.task) && !job.pc.Opening? && !job.pc.Releasing?
    && (!job.content.stagingRemoved || job.pc.Recording? || job.pc.Withdrawing? || job.pc.Restoring?)
  }

  predicate ClaimsParked(job: Job) {
    job.task.Replace? && (Swapping(job.pc) || job.pc.DroppingParked?)
  }

  /** The `tmp` names that a job may still write, rename or remove. */
  function Claims(job: Job): set<string> {
    (if ClaimsStaging(job) then {job.content.staging} else {})
    + (if ClaimsParked(job) then {ParkedName(job.content)} else {})
  }

  /** The slug whose row and directory a job works on. */
  function Targets(job: Job): set<string> {
    match job.task
    case Publish(_) =>
      (match job.pc
       case Inserting(_, _, slug) => {slug}
       case Reserving(_, _, slug) => {slug}
       case Installing(_, slug) => {slug}
       case Committing(_, slug) => {slug}
       case _ => {}) + (if job.content.installed.Some? then {job.content.installed.value} else {})
    case _ => {Slug(job.task)}
  }

  ghost predicate Disjoint(s: State) {
    forall a, b | a in s.jobs && b in s.jobs && a != b :: Claims(s.jobs[a]) !! Claims(s.jobs[b])
  }

  /** No live job still claims the name. */
  predicate Unclaimed(s: State, name: string) {
    forall id | id in s.jobs :: name !in Claims(s.jobs[id])
  }

  /** Between its swap and the writing of its row, a replacement may need its absent staging name again. */
  predicate Awaits(job: Job, name: string) {
    job.task.Replace? && (job.pc.Recording? || job.pc.Withdrawing?) && job.content.staging == name
  }

  predicate Awaited(s: State, name: string) {
    exists id | id in s.jobs :: Awaits(s.jobs[id], name)
  }

  /** The job draws a staging name that exclusive creation will accept. */
  predicate Creates(s: State, event: Event) {
    && event.Act? && event.choice.Pick? && event.id in s.jobs && s.jobs[event.id].pc.Opening?
    && ValidSlug(event.choice.name) && event.choice.name !in s.tmp
  }

  /** The one assumption about generated staging names: none is created while a replacement awaits it. */
  predicate FreshName(s: State, event: Event) {
    Creates(s, event) ==> !Awaited(s, event.choice.name)
  }

  // ---------- What each job knows ----------

  predicate Plain(content: Ownership) {
    content.installed.None? && !content.preserveInstalled
  }

  /** Staging exists and nothing has been installed yet. */
  predicate Preparing(pc: Pc) {
    || pc.Writing? || pc.Discarding? || pc.Waiting? || pc.Finding? || pc.Dating?
    || pc.Choosing? || pc.Inserting? || pc.Reserving? || pc.Declining?
    || pc.Parking? || pc.Promoting? || pc.Unparking?
  }

  /** A publication tries the slug that was asked for, if any was. */
  predicate Asks(task: Task, slug: string) {
    task.Publish? && task.input.slug.Some? ==> task.input.slug.value == slug
  }

  /** How the ownership record and the slug go with the program counter. */
  predicate Shape(job: Job) {
    var content, pc := job.content, job.pc;
    && PcFits(job.task, pc)
    && (pc.Inserting? || pc.Reserving? || pc.Installing? || pc.Committing? ==> Asks(job.task, pc.slug))
    && (Stages(job.task) && !pc.Opening? ==>
          && ValidSlug(content.staging)
          && (job.task.Replace? ==> Plain(content))
          && (Preparing(pc) ==> Plain(content) && !content.stagingRemoved)
          && (pc.Installing? ==>
                content.installed == Some(pc.slug) && !content.preserveInstalled && !content.stagingRemoved)
          && (pc.Committing? ==>
                content.installed == Some(pc.slug) && !content.preserveInstalled && content.stagingRemoved)
          && (pc.RollingBack? ==> !content.stagingRemoved)
          && (pc.Recording? || pc.Withdrawing? || pc.Restoring? || pc.DroppingParked? ==> content.stagingRemoved))
  }

  /** The staging directory holds the complete input. */
  ghost predicate StagedIn(s: State, job: Job)
    requires Stages(job.task)
  {
    job.content.staging in s.tmp && WriteAll(job.task.input.files) == Some(s.tmp[job.content.staging])
  }

  /** A reservation that cleanup would remove is this job's own empty directory without a row. */
  ghost predicate OwnReservation(s: State, slug: string) {
    slug !in s.rows && slug in s.sites && s.sites[slug] == EMPTY_DIRECTORY
  }

  ghost predicate PublishKnows(s: State, job: Job)
    requires job.task.Publish?
  {
    match job.pc
    case Dating => StagedIn(s, job)
    case Choosing(_, attempt) => StagedIn(s, job) && attempt < MAX_SLUG_ATTEMPTS
    case Inserting(_, attempt, slug) => StagedIn(s, job) && attempt < MAX_SLUG_ATTEMPTS && ValidSlug(slug)
    case Reserving(_, attempt, slug) =>
      StagedIn(s, job) && attempt < MAX_SLUG_ATTEMPTS && ValidSlug(slug) && slug !in s.rows
    case Declining(_, attempt) => StagedIn(s, job) && attempt < MAX_SLUG_ATTEMPTS
    case Installing(_, slug) => StagedIn(s, job) && ValidSlug(slug) && OwnReservation(s, slug)
    case Committing(_, slug) =>
      && ValidSlug(slug) && slug !in s.rows && slug in s.sites
      && WriteAll(job.task.input.files) == Some(s.sites[slug])
    case RollingBack => Unused(job.content) ==> OwnReservation(s, job.content.installed.value)
    case Unreserving => Unused(job.content) ==> OwnReservation(s, job.content.installed.value)
    case _ => true
  }

  ghost predicate ReplaceKnows(s: State, job: Job)
    requires job.task.Replace?
  {
    var slug, parked := job.task.slug, ParkedName(job.content);
    match job.pc
    case Finding => StagedIn(s, job)
    case Dating => StagedIn(s, job) && slug in s.rows
    case Parking(_) => StagedIn(s, job) && slug in s.rows
    case Promoting(_) => StagedIn(s, job) && slug in s.rows && slug !in s.sites && parked in s.tmp
    case Unparking => slug in s.rows && slug !in s.sites && parked in s.tmp
    case Recording(_) => SwappedIn(s, job)
    case Withdrawing => SwappedIn(s, job)
    case Restoring => slug in s.rows && slug !in s.sites && parked in s.tmp && job.content.staging in s.tmp
    case DroppingParked => slug in s.rows && parked in s.tmp
    case _ => true
  }

  /** The new content is served, the old one is parked, and the staging name is free. */
  ghost predicate SwappedIn(s: State, job: Job)
    requires job.task.Replace?
  {
    var slug := job.task.slug;
    && job.content.staging !in s.tmp && ParkedName(job.content) in s.tmp
    && slug in s.rows && slug in s.sites && WriteAll(job.task.input.files) == Some(s.sites[slug])
  }

  ghost predicate UpdateKnows(s: State, job: Job)
    requires job.task.Update?
  {
    var slug, entry := job.task.slug, job.task.settings.entry;
    match job.pc
    case Checking => slug in s.rows
    case Dating => slug in s.rows && slug in s.sites && IsFile(s.sites[slug], [entry])
    case Saving(_) => slug in s.rows && slug in s.sites && IsFile(s.sites[slug], [entry])
    case _ => true
  }

  ghost predicate StagingKnows(s: State, job: Job)
    requires Stages(job.task)
  {
    && (!job.pc.Opening? && !job.pc.Releasing? && !job.content.stagingRemoved ==> job.content.staging in s.tmp)
    && match job.pc
    case Writing(next) =>
      && next <= |job.task.input.files|
      && job.content.staging in s.tmp
      && WriteAll(job.task.input.files[..next]) == Some(s.tmp[job.content.staging])
    case Waiting => StagedIn(s, job)
    case _ => true
  }

  /** What a job's program counter implies about the shared state. */
  ghost predicate Knows(s: State, job: Job) {
    match job.task
    case Publish(_) => StagingKnows(s, job) && PublishKnows(s, job)
    case Replace(_, _) => StagingKnows(s, job) && ReplaceKnows(s, job)
    case Update(_, _) => UpdateKnows(s, job)
    case Delete(slug) => (job.pc.DeletingRow? ==> slug in s.rows) && (job.pc.DeletingContent? ==> slug !in s.rows)
    case Archive(slug) => job.pc.Packing? ==> slug in s.rows
  }

  ghost predicate JobsOk(s: State) {
    forall id | id in s.jobs :: Shape(s.jobs[id]) && ValidTask(s.jobs[id].task) && Knows(s, s.jobs[id])
  }

  ghost predicate LockHeldByPc(s: State) {
    && (forall id | id in s.jobs :: Locked(s.jobs[id].pc) <==> s.holder == Some(id))
    && (s.holder.Some? ==> s.holder.value in s.jobs)
  }

  // ---------- The logical content of a site ----------

  /** The slug whose served directory is parked, and the parked name. */
  function Displaced(s: State): Option<(string, string)> {
    if s.holder.Some? && s.holder.value in s.jobs then
      var job := s.jobs[s.holder.value];
      if job.task.Replace? && Swapping(job.pc) then Some((job.task.slug, ParkedName(job.content))) else None
    else None
  }

  /** The content of a slug, where a swap in progress still counts as the old content. */
  function ViewAt(s: State, slug: string): Option<Tree> {
    var displaced := Displaced(s);
    if displaced.Some? && displaced.value.0 == slug then
      if displaced.value.1 in s.tmp then Some(s.tmp[displaced.value.1]) else None
    else if slug in s.sites then Some(s.sites[slug])
    else None
  }

  /** What the two stores together say about a slug: nothing unless there is a row and content. */
  function SiteAt(s: State, slug: string): Option<(Row, Tree)> {
    if slug in s.rows && ViewAt(s, slug).Some? then Some((s.rows[slug], ViewAt(s, slug).value)) else None
  }

  ghost predicate SiteOk(s: State, slug: string)
    requires slug in s.rows
  {
    && ValidSlug(slug)
    && CheckConstraint(s.rows[slug])
    && (s.phase.Serving? ==> ViewAt(s, slug).Some?)
    && (ViewAt(s, slug).Some? ==>
          Whole(ViewAt(s, slug).value) && (slug !in s.stale ==> Consistent(s.rows[slug], ViewAt(s, slug).value)))
  }

  ghost predicate SitesOk(s: State) {
    forall slug | slug in s.rows :: SiteOk(s, slug)
  }

  ghost predicate Inv(s: State) {
    && (!s.phase.Serving? ==> s.jobs == map[] && s.holder.None?)
    && s.stale <= s.rows.Keys
    && LockHeldByPc(s)
    && Disjoint(s)
    && JobsOk(s)
    && SitesOk(s)
  }

  // ---------- Staging isolation ----------

  /** The names a step may add to a job's claims: a parked name, or a name just created. */
  predicate MayClaim(s: State, job: Job, choice: Choice, name: string) {
    || (job.pc.Parking? && name == ParkedName(job.content))
    || (job.pc.Opening? && choice == Pick(name) && name !in s.tmp)
  }

  /** A step touches only the job's own names in `tmp` and, under the lock, its own slug. */
  predicate WithinOwn(s: State, job: Job, choice: Choice, e: Effect) {
    && (Touched(e.tmp) <= Claims(job) + (if e.job.Some? then Claims(e.job.value) else {}))
    && Touched(e.site) <= Targets(job) && Touched(e.row) <= Targets(job)
    && (!Locked(job.pc) ==> e.site.Same? && e.row.Same?)
    && (e.lock.Acquire? ==> job.pc.Waiting?)
    && (if e.lock.LockSame? then e.job.Some? ==> (Locked(e.job.value.pc) <==> Locked(job.pc))
        else if e.lock.Acquire? then e.job.Some? && Locked(e.job.value.pc)
        else Locked(job.pc) && e.job.None?)
    && (e.job.None? && e.lock.LockSame? ==> !Locked(job.pc))
    && (e.job.Some? ==> e.job.value.task == job.task && Shape(e.job.value))
    && (e.job.Some? ==> forall name <- Claims(e.job.value) :: name in Claims(job) || MayClaim(s, job, choice, name))
  }

  /** Under the lock, looking up the row or trying slugs: nothing is installed or parked yet. */
  predicate EarlyPc(pc: Pc) {
    || pc.Finding? || pc.Dating? || pc.Parking?
    || pc.Choosing? || pc.Inserting? || pc.Reserving? || pc.Declining?
  }

  /** The served directory is parked and nothing has taken its place. */
  predicate PromotionPc(pc: Pc) {
    pc.Promoting? || pc.Unparking?
  }

  /** The swap is complete or being taken back. */
  predicate SwappedPc(pc: Pc) {
    pc.Recording? || pc.Withdrawing? || pc.Restoring?
  }

  predicate InstallPc(pc: Pc) {
    pc.Installing? || pc.Committing?
  }

  predicate CleanupPc(pc: Pc) {
    pc.RollingBack? || pc.Unreserving? || pc.Unstaging? || pc.Releasing?
  }

  /** Every system call of every job stays within what the job owns. */
  lemma EffectIsWithinOwn(s: State, job: Job, choice: Choice)
    requires Shape(job) && EffectOf(s, job, choice).Some?
    ensures WithinOwn(s, job, choice, EffectOf(s, job, choice).value)
  {
    var pc := job.pc;
    if pc.Waiting? || pc.Discarding? { WaitingIsWithinOwn(s, job, choice); }
    else if pc.Opening? { OpeningIsWithinOwn(s, job, choice); }
    else if pc.Writing? { WritingIsWithinOwn(s, job, choice); }
    else if pc.Finding? { LookupIsWithinOwn(s, job, choice); }
    else if pc.Dating? { DatingIsWithinOwn(s, job, choice); }
    else if pc.Parking? { ParkIsWithinOwn(s, job, choice); }
    else if pc.Choosing? || pc.Declining? { AttemptIsWithinOwn(s, job, choice); }
    else if pc.Inserting? { InsertIsWithinOwn(s, job, choice); }
    else if pc.Reserving? { ReserveIsWithinOwn(s, job, choice); }
    else if pc.Installing? { InstallIsWithinOwn(s, job, choice); }
    else if pc.Committing? { CommitIsWithinOwn(s, job, choice); }
    else if pc.Promoting? { PromoteIsWithinOwn(s, job, choice); }
    else if pc.Unparking? { UnparkIsWithinOwn(s, job, choice); }
    else if pc.Recording? { RecordIsWithinOwn(s, job, choice); }
    else if pc.Withdrawing? || pc.Restoring? { SwapBackIsWithinOwn(s, job, choice); }
    else if pc.Saving? { SaveIsWithinOwn(s, job, choice); }
    else if pc.Checking? || pc.Packing? { CheckIsWithinOwn(s, job, choice); }
    else if pc.DroppingParked? { DropIsWithinOwn(s, job, choice); }
    else if pc.DeletingRow? || pc.DeletingContent? { RemovalIsWithinOwn(s, job, choice); }
    else if pc.RollingBack? || pc.Unreserving? { UnreserveIsWithinOwn(s, job, choice); }
    else { UnstageIsWithinOwn(s, job, choice); }
  }

  lemma WaitingIsWithinOwn(s: State, job: Job, choice: Choice)
    requires (job.pc.Waiting? || job.pc.Discarding?) && Shape(job) && EffectOf(s, job, choice).Some?
    ensures WithinOwn(s, job, choice, EffectOf(s, job, choice).value)
  {}

  lemma OpeningIsWithinOwn(s: State, job: Job, choice: Choice)
    requires job.pc.Opening? && Shape(job) && EffectOf(s, job, choice).Some?
    ensures WithinOwn(s, job, choice, EffectOf(s, job, choice).value)
  {}

  lemma WritingIsWithinOwn(s: State, job: Job, choice: Choice)
    requires job.pc.Writing? && Shape(job) && EffectOf(s, job, choice).Some?
    ensures WithinOwn(s, job, choice, EffectOf(s, job, choice).value)
  {}

  lemma LookupIsWithinOwn(s: State, job: Job, choice: Choice)
    requires job.pc.Finding? && Shape(job) && EffectOf(s, job, choice).Some?
    ensures WithinOwn(s, job, choice, EffectOf(s, job, choice).value)
  {}

  lemma DatingIsWithinOwn(s: State, job: Job, choice: Choice)
    requires job.pc.Dating? && Shape(job) && EffectOf(s, job, choice).Some?
    ensures WithinOwn(s, job, choice, EffectOf(s, job, choice).value)
  {}

  lemma ParkIsWithinOwn(s: State, job: Job, choice: Choice)
    requires job.pc.Parking? && Shape(job) && EffectOf(s, job, choice).Some?
    ensures WithinOwn(s, job, choice, EffectOf(s, job, choice).value)
  {}

  lemma AttemptIsWithinOwn(s: State, job: Job, choice: Choice)
    requires (job.pc.Choosing? || job.pc.Declining?) && Shape(job) && EffectOf(s, job, choice).Some?
    ensures WithinOwn(s, job, choice, EffectOf(s, job, choice).value)
  {}

  lemma InsertIsWithinOwn(s: State, job: Job, choice: Choice)
    requires job.pc.Inserting? && Shape(job) && EffectOf(s, job, choice).Some?
    ensures WithinOwn(s, job, choice, EffectOf(s, job, choice).value)
  {}

  lemma ReserveIsWithinOwn(s: State, job: Job, choice: Choice)
    requires job.pc.Reserving? && Shape(job) && EffectOf(s, job, choice).Some?
    ensures WithinOwn(s, job, choice, EffectOf(s, job, choice).value)
  {}

  lemma InstallIsWithinOwn(s: State, job: Job, choice: Choice)
    requires job.pc.Installing? && Shape(job) && EffectOf(s, job, choice).Some?
    ensures WithinOwn(s, job, choice, EffectOf(s, job, choice).value)
  {}

  lemma CommitIsWithinOwn(s: State, job: Job, choice: Choice)
    requires job.pc.Committing? && Shape(job) && EffectOf(s, job, choice).Some?
    ensures WithinOwn(s, job, choice, EffectOf(s, job, choice).value)
  {}

  lemma PromoteIsWithinOwn(s: State, job: Job, choice: Choice)
    requires job.pc.Promoting? && Shape(job) && EffectOf(s, job, choice).Some?
    ensures WithinOwn(s, job, choice, EffectOf(s, job, choice).value)
  {}

  lemma UnparkIsWithinOwn(s: State, job: Job, choice: Choice)
    requires job.pc.Unparking? && Shape(job) && EffectOf(s, job, choice).Some?
    ensures WithinOwn(s, job, choice, EffectOf(s, job, choice).value)
  {}

  lemma RecordIsWithinOwn(s: State, job: Job, choice: Choice)
    requires job.pc.Recording? && Shape(job) && EffectOf(s, job, choice).Some?
    ensures WithinOwn(s, job, choice, EffectOf(s, job, choice).value)
  {}

  lemma SwapBackIsWithinOwn(s: State, job: Job, choice: Choice)
    requires (job.pc.Withdrawing? || job.pc.Restoring?) && Shape(job) && EffectOf(s, job, choice).Some?
    ensures WithinOwn(s, job, choice, EffectOf(s, job, choice).value)
  {}

  lemma CheckIsWithinOwn(s: State, job: Job, choice: Choice)
    requires (job.pc.Checking? || job.pc.Packing?) && Shape(job) && EffectOf(s, job, choice).Some?
    ensures WithinOwn(s, job, choice, EffectOf(s, job, choice).value)
  {}

  lemma SaveIsWithinOwn(s: State, job: Job, choice: Choice)
    requires job.pc.Saving? && Shape(job) && EffectOf(s, job, choice).Some?
    ensures WithinOwn(s, job, choice, EffectOf(s, job, choice).value)
  {}

  lemma DropIsWithinOwn(s: State, job: Job, choice: Choice)
    requires job.pc.DroppingParked? && Shape(job) && EffectOf(s, job, choice).Some?
    ensures WithinOwn(s, job, choice, EffectOf(s, job, choice).value)
  {}

  lemma RemovalIsWithinOwn(s: State, job: Job, choice: Choice)
    requires (job.pc.DeletingRow? || job.pc.DeletingContent?) && Shape(job) && EffectOf(s, job, choice).Some?
    ensures WithinOwn(s, job, choice, EffectOf(s, job, choice).value)
  {}

  lemma UnreserveIsWithinOwn(s: State, job: Job, choice: Choice)
    requires (job.pc.RollingBack? || job.pc.Unreserving?) && Shape(job) && EffectOf(s, job, choice).Some?
    ensures WithinOwn(s, job, choice, EffectOf(s, job, choice).value)
  {}

  lemma UnstageIsWithinOwn(s: State, job: Job, choice: Choice)
    requires (job.pc.Unstaging? || job.pc.Releasing?) && Shape(job) && EffectOf(s, job, choice).Some?
    ensures WithinOwn(s, job, choice, EffectOf(s, job, choice).value)
  {}

  /** The names on which two directories or tables agree. */
  ghost predicate SameAt<T>(a: map<string, T>, b: map<string, T>, name: string) {
    (name in a <==> name in b) && (name in a ==> a[name] == b[name])
  }

  /** What another job can see of a step. */
  ghost predicate Isolated(s: State, after: State, id: JobId)
    requires id in s.jobs
  {
    var job := s.jobs[id];
    var claims := Claims(job) + (if id in after.jobs then Claims(after.jobs[id]) else {});
    && after.phase == s.phase
    && (forall other | other != id :: other in after.jobs <==> other in s.jobs)
    && (forall other | other != id && other in s.jobs :: after.jobs[other] == s.jobs[other])
    && (forall name | name !in claims :: SameAt(after.tmp, s.tmp, name))
    && (forall slug | slug !in Targets(job) :: SameAt(after.rows, s.rows, slug) && SameAt(after.sites, s.sites, slug))
    && (s.holder != Some(id) ==> after.rows == s.rows && after.sites == s.sites)
    && (after.holder != s.holder ==>
          (s.holder.None? && after.holder == Some(id)) || (s.holder == Some(id) && after.holder.None?))
  }

  /**
   * Over every interleaving, a step of one job leaves every other job, every name in `tmp` it does not
   * claim and every slug it does not work on as they were, and without the lock all rows and sites.
   */
  lemma StepIsIsolated(s: State, id: JobId, choice: Choice)
    requires id in s.jobs && Shape(s.jobs[id]) && LockHeldByPc(s)
    ensures Isolated(s, Step(s, id, choice), id)
  {
    if EffectOf(s, s.jobs[id], choice).Some? {
      EffectIsWithinOwn(s, s.jobs[id], choice);
      OwnEffectIsIsolated(s, id, choice, EffectOf(s, s.jobs[id], choice).value);
    }
  }

  lemma OwnEffectIsIsolated(s: State, id: JobId, choice: Choice, e: Effect)
    requires id in s.jobs && LockHeldByPc(s) && WithinOwn(s, s.jobs[id], choice, e)
    requires e.lock.Acquire? ==> s.holder.None?
    ensures Isolated(s, Apply(s, id, e), id)
  {}

  // ---------- What the other jobs keep ----------

  /** A slug without an entry in `tmp` is claimed exactly by the replacement that awaits it. */
  lemma FreeNamesAreClaimedOnlyByWaiters(s: State, id: JobId, name: string)
    requires id in s.jobs && Shape(s.jobs[id]) && Knows(s, s.jobs[id]) && ValidSlug(name) && name !in s.tmp
    ensures name in Claims(s.jobs[id]) <==> Awaits(s.jobs[id], name)
  {
    var job := s.jobs[id];
    if ClaimsParked(job) { ParkedNamesAreApart(job.content.staging, name); }
  }

  lemma UnclaimedIffNotAwaited(s: State, name: string)
    requires JobsOk(s) && ValidSlug(name) && name !in s.tmp
    ensures Unclaimed(s, name) <==> !Awaited(s, name)
  {
    forall id | id in s.jobs ensures name in Claims(s.jobs[id]) <==> Awaits(s.jobs[id], name) {
      FreeNamesAreClaimedOnlyByWaiters(s, id, name);
    }
  }

  /** The names that a job may come to claim by one step are claimed by no other job. */
  lemma ClaimsStayDisjoint(s: State, id: JobId, choice: Choice, other: JobId)
    requires LockHeldByPc(s) && Disjoint(s) && JobsOk(s) && FreshName(s, Act(id, choice))
    requires id in s.jobs && other in s.jobs && other != id
    requires EffectOf(s, s.jobs[id], choice).Some? && EffectOf(s, s.jobs[id], choice).value.job.Some?
    ensures Claims(EffectOf(s, s.jobs[id], choice).value.job.value) !! Claims(s.jobs[other])
  {
    var job, neighbour := s.jobs[id], s.jobs[other];
    EffectIsWithinOwn(s, job, choice);
    assert Claims(job) !! Claims(neighbour);
    if job.pc.Parking? {
      NewParkedNameIsApart(job, neighbour);
    } else if job.pc.Opening? {
      NewStagingNameIsApart(s, id, choice, other);
    }
  }

  /** Parked against staging: nobody else can have parked anything without the lock. */
  lemma NewParkedNameIsApart(job: Job, neighbour: Job)
    requires Shape(job) && Shape(neighbour) && job.pc.Parking? && !Locked(neighbour.pc)
    ensures ParkedName(job.content) !in Claims(neighbour)
  {
    if ClaimsStaging(neighbour) { ParkedNamesAreApart(job.content.staging, neighbour.content.staging); }
  }

  /** Staging against staging: a created name is free, and no replacement awaits it. */
  lemma NewStagingNameIsApart(s: State, id: JobId, choice: Choice, other: JobId)
    requires JobsOk(s) && FreshName(s, Act(id, choice)) && id in s.jobs && other in s.jobs && s.jobs[id].pc.Opening?
    requires EffectOf(s, s.jobs[id], choice).Some?
    ensures forall name | MayClaim(s, s.jobs[id], choice, name) :: name !in Claims(s.jobs[other])
  {
    if choice.Pick? && choice.name !in s.tmp {
      FreeNamesAreClaimedOnlyByWaiters(s, other, choice.name);
    }
  }

  /** Another job still knows what it knew. */
  lemma OthersStillKnow(s: State, after: State, id: JobId, other: JobId)
    requires LockHeldByPc(s) && Disjoint(s) && JobsOk(s)
    requires id in s.jobs && other in s.jobs && other != id && Isolated(s, after, id)
    requires id in after.jobs ==> Claims(after.jobs[id]) !! Claims(s.jobs[other])
    ensures Knows(after, s.jobs[other])
  {
    var job := s.jobs[other];
    assert forall name | name in Claims(job) :: SameAt(after.tmp, s.tmp, name);
    if Locked(job.pc) {
      assert after.rows == s.rows && after.sites == s.sites;
    }
    KnowledgeIsLocal(s, after, job);
  }

  /** Knowledge depends on claimed names and, under the lock, on rows and sites. */
  lemma KnowledgeIsLocal(s: State, after: State, job: Job)
    requires Shape(job) && Knows(s, job)
    requires forall name | name in Claims(job) :: SameAt(after.tmp, s.tmp, name)
    requires Locked(job.pc) ==> after.rows == s.rows && after.sites == s.sites
    ensures Knows(after, job)
  {
    if ClaimsStaging(job) { assert SameAt(after.tmp, s.tmp, job.content.staging); }
    if ClaimsParked(job) { assert SameAt(after.tmp, s.tmp, ParkedName(job.content)); }
  }

  // ---------- What the stepping job knows next ----------

  /** A job knows after its step what its next program counter says. */
  lemma StepperKnows(s: State, id: JobId, choice: Choice)
    requires Inv(s) && id in s.jobs
    requires EffectOf(s, s.jobs[id], choice).Some? && EffectOf(s, s.jobs[id], choice).value.job.Some?
    ensures Knows(Step(s, id, choice), EffectOf(s, s.jobs[id], choice).value.job.value)
  {
    var job := s.jobs[id];
    assert Shape(job) && ValidTask(job.task) && Knows(s, job);
    var e := EffectOf(s, job, choice).value;
    var after := Step(s, id, choice);
    if job.pc.Writing? { WritingKnowsNext(s, id, choice); }
    else if !Locked(job.pc) { StagingKnowsNext(s, id, choice); }
    else if job.task.Publish? { PublishKnowsNext(s, id, choice); }
    else if job.task.Replace? { ReplaceKnowsNext(s, id, choice); }
    else if job.task.Update? { RowJobKnowsNext(s, id, choice); }
    else { DeletionKnowsNext(s, id, choice); }
  }

  lemma ReplaceKnowsNext(s: State, id: JobId, choice: Choice)
    requires id in s.jobs && Shape(s.jobs[id]) && Knows(s, s.jobs[id]) && s.jobs[id].task.Replace? && Locked(s.jobs[id].pc)
    requires EffectOf(s, s.jobs[id], choice).Some? && EffectOf(s, s.jobs[id], choice).value.job.Some?
    ensures Knows(Step(s, id, choice), EffectOf(s, s.jobs[id], choice).value.job.value)
  {
    var pc := s.jobs[id].pc;
    if PromotionPc(pc) { SwapKnowsNext(s, id, choice); }
    else if pc.Recording? { RecordKnowsNext(s, id, choice); }
    else if SwappedPc(pc) { SwapBackKnowsNext(s, id, choice); }
    else if pc.Parking? { ParkKnowsNext(s, id, choice); }
    else if EarlyPc(pc) { EarlyReplaceKnowsNext(s, id, choice); }
    else { LateReplaceKnowsNext(s, id, choice); }
  }

  lemma StagingKnowsNext(s: State, id: JobId, choice: Choice)
    requires id in s.jobs && Shape(s.jobs[id]) && Knows(s, s.jobs[id]) && !Locked(s.jobs[id].pc) && !s.jobs[id].pc.Writing?
    requires EffectOf(s, s.jobs[id], choice).Some? && EffectOf(s, s.jobs[id], choice).value.job.Some?
    ensures Knows(Step(s, id, choice), EffectOf(s, s.jobs[id], choice).value.job.value)
  {}

  lemma WritingKnowsNext(s: State, id: JobId, choice: Choice)
    requires id in s.jobs && Shape(s.jobs[id]) && Knows(s, s.jobs[id]) && s.jobs[id].pc.Writing?
    requires EffectOf(s, s.jobs[id], choice).Some? && EffectOf(s, s.jobs[id], choice).value.job.Some?
    ensures Knows(Step(s, id, choice), EffectOf(s, s.jobs[id], choice).value.job.value)
  {
    if s.jobs[id].pc.next < |s.jobs[id].task.input.files| {
      WritingOneKnowsNext(s, id, choice);
    } else {
      WrittenKnowsNext(s, id, choice);
    }
  }

  lemma WritingOneKnowsNext(s: State, id: JobId, choice: Choice)
    requires id in s.jobs && Shape(s.jobs[id]) && Knows(s, s.jobs[id]) && s.jobs[id].pc.Writing?
    requires s.jobs[id].pc.next < |s.jobs[id].task.input.files|
    requires EffectOf(s, s.jobs[id], choice).Some? && EffectOf(s, s.jobs[id], choice).value.job.Some?
    ensures Knows(Step(s, id, choice), EffectOf(s, s.jobs[id], choice).value.job.value)
  {
    var files, next := s.jobs[id].task.input.files, s.jobs[id].pc.next;
    assert files[..next + 1][..next] == files[..next];
  }

  lemma WrittenKnowsNext(s: State, id: JobId, choice: Choice)
    requires id in s.jobs && Shape(s.jobs[id]) && Knows(s, s.jobs[id]) && s.jobs[id].pc.Writing?
    requires s.jobs[id].pc.next >= |s.jobs[id].task.input.files|
    requires EffectOf(s, s.jobs[id], choice).Some? && EffectOf(s, s.jobs[id], choice).value.job.Some?
    ensures Knows(Step(s, id, choice), EffectOf(s, s.jobs[id], choice).value.job.value)
  {
    assert s.jobs[id].task.input.files[..s.jobs[id].pc.next] == s.jobs[id].task.input.files;
  }

  lemma PublishKnowsNext(s: State, id: JobId, choice: Choice)
    requires id in s.jobs && Shape(s.jobs[id]) && Knows(s, s.jobs[id]) && s.jobs[id].task.Publish? && Locked(s.jobs[id].pc)
    requires EffectOf(s, s.jobs[id], choice).Some? && EffectOf(s, s.jobs[id], choice).value.job.Some?
    ensures Knows(Step(s, id, choice), EffectOf(s, s.jobs[id], choice).value.job.value)
  {
    var pc := s.jobs[id].pc;
    if pc.Dating? || pc.Choosing? || pc.Declining? { AttemptKnowsNext(s, id, choice); }
    else if pc.Inserting? || pc.Reserving? { ReserveKnowsNext(s, id, choice); }
    else if InstallPc(pc) { InstallKnowsNext(s, id, choice); }
    else if pc.RollingBack? || pc.Unreserving? { CleanupKnowsNext(s, id, choice); }
    else { UnstageKnowsNext(s, id, choice); }
  }

  lemma AttemptKnowsNext(s: State, id: JobId, choice: Choice)
    requires id in s.jobs && Shape(s.jobs[id]) && Knows(s, s.jobs[id])
    requires s.jobs[id].task.Publish? && (s.jobs[id].pc.Dating? || s.jobs[id].pc.Choosing? || s.jobs[id].pc.Declining?)
    requires EffectOf(s, s.jobs[id], choice).Some? && EffectOf(s, s.jobs[id], choice).value.job.Some?
    ensures Knows(Step(s, id, choice), EffectOf(s, s.jobs[id], choice).value.job.value)
  {}

  lemma ReserveKnowsNext(s: State, id: JobId, choice: Choice)
    requires id in s.jobs && Shape(s.jobs[id]) && Knows(s, s.jobs[id])
    requires s.jobs[id].task.Publish? && (s.jobs[id].pc.Inserting? || s.jobs[id].pc.Reserving?)
    requires EffectOf(s, s.jobs[id], choice).Some? && EffectOf(s, s.jobs[id], choice).value.job.Some?
    ensures Knows(Step(s, id, choice), EffectOf(s, s.jobs[id], choice).value.job.value)
  {}

  lemma InstallKnowsNext(s: State, id: JobId, choice: Choice)
    requires id in s.jobs && Shape(s.jobs[id]) && Knows(s, s.jobs[id]) && s.jobs[id].task.Publish? && InstallPc(s.jobs[id].pc)
    requires EffectOf(s, s.jobs[id], choice).Some? && EffectOf(s, s.jobs[id], choice).value.job.Some?
    ensures Knows(Step(s, id, choice), EffectOf(s, s.jobs[id], choice).value.job.value)
  {}

  lemma CleanupKnowsNext(s: State, id: JobId, choice: Choice)
    requires id in s.jobs && Shape(s.jobs[id]) && Knows(s, s.jobs[id])
    requires s.jobs[id].task.Publish? && (s.jobs[id].pc.RollingBack? || s.jobs[id].pc.Unreserving?)
    requires EffectOf(s, s.jobs[id], choice).Some? && EffectOf(s, s.jobs[id], choice).value.job.Some?
    ensures Knows(Step(s, id, choice), EffectOf(s, s.jobs[id], choice).value.job.value)
  {}

  lemma UnstageKnowsNext(s: State, id: JobId, choice: Choice)
    requires id in s.jobs && Shape(s.jobs[id]) && Knows(s, s.jobs[id])
    requires s.jobs[id].task.Publish? && (s.jobs[id].pc.Unstaging? || s.jobs[id].pc.Releasing?)
    requires EffectOf(s, s.jobs[id], choice).Some? && EffectOf(s, s.jobs[id], choice).value.job.Some?
    ensures Knows(Step(s, id, choice), EffectOf(s, s.jobs[id], choice).value.job.value)
  {}

  lemma SwapKnowsNext(s: State, id: JobId, choice: Choice)
    requires id in s.jobs && Shape(s.jobs[id]) && Knows(s, s.jobs[id])
    requires s.jobs[id].task.Replace? && PromotionPc(s.jobs[id].pc)
    requires EffectOf(s, s.jobs[id], choice).Some? && EffectOf(s, s.jobs[id], choice).value.job.Some?
    ensures Knows(Step(s, id, choice), EffectOf(s, s.jobs[id], choice).value.job.value)
  {
    ParkedNamesAreApart(s.jobs[id].content.staging, s.jobs[id].content.staging);
  }

  lemma RecordKnowsNext(s: State, id: JobId, choice: Choice)
    requires id in s.jobs && Shape(s.jobs[id]) && Knows(s, s.jobs[id]) && s.jobs[id].task.Replace? && s.jobs[id].pc.Recording?
    requires EffectOf(s, s.jobs[id], choice).Some? && EffectOf(s, s.jobs[id], choice).value.job.Some?
    ensures Knows(Step(s, id, choice), EffectOf(s, s.jobs[id], choice).value.job.value)
  {}

  lemma SwapBackKnowsNext(s: State, id: JobId, choice: Choice)
    requires id in s.jobs && Shape(s.jobs[id]) && Knows(s, s.jobs[id]) && s.jobs[id].task.Replace?
    requires s.jobs[id].pc.Withdrawing? || s.jobs[id].pc.Restoring?
    requires EffectOf(s, s.jobs[id], choice).Some? && EffectOf(s, s.jobs[id], choice).value.job.Some?
    ensures Knows(Step(s, id, choice), EffectOf(s, s.jobs[id], choice).value.job.value)
  {
    ParkedNamesAreApart(s.jobs[id].content.staging, s.jobs[id].content.staging);
  }

  lemma EarlyReplaceKnowsNext(s: State, id: JobId, choice: Choice)
    requires id in s.jobs && Shape(s.jobs[id]) && Knows(s, s.jobs[id])
    requires s.jobs[id].task.Replace? && !s.jobs[id].pc.Parking? && EarlyPc(s.jobs[id].pc)
    requires EffectOf(s, s.jobs[id], choice).Some? && EffectOf(s, s.jobs[id], choice).value.job.Some?
    ensures Knows(Step(s, id, choice), EffectOf(s, s.jobs[id], choice).value.job.value)
  {
    ParkedNamesAreApart(s.jobs[id].content.staging, s.jobs[id].content.staging);
  }

  lemma ParkKnowsNext(s: State, id: JobId, choice: Choice)
    requires id in s.jobs && Shape(s.jobs[id]) && Knows(s, s.jobs[id]) && s.jobs[id].task.Replace? && s.jobs[id].pc.Parking?
    requires EffectOf(s, s.jobs[id], choice).Some? && EffectOf(s, s.jobs[id], choice).value.job.Some?
    ensures Knows(Step(s, id, choice), EffectOf(s, s.jobs[id], choice).value.job.value)
  {
    if EffectOf(s, s.jobs[id], choice).value.job.value.pc.Promoting? {
      ParkedKnowsNext(s, id, choice);
    }
  }

  lemma ParkedKnowsNext(s: State, id: JobId, choice: Choice)
    requires id in s.jobs && Shape(s.jobs[id]) && Knows(s, s.jobs[id]) && s.jobs[id].task.Replace? && s.jobs[id].pc.Parking?
    requires EffectOf(s, s.jobs[id], choice).Some? && EffectOf(s, s.jobs[id], choice).value.job.Some?
    requires EffectOf(s, s.jobs[id], choice).value.job.value.pc.Promoting?
    ensures Knows(Step(s, id, choice), EffectOf(s, s.jobs[id], choice).value.job.value)
  {
    ParkedNamesAreApart(s.jobs[id].content.staging, s.jobs[id].content.staging);
  }

  lemma LateReplaceKnowsNext(s: State, id: JobId, choice: Choice)
    requires id in s.jobs && Shape(s.jobs[id]) && Knows(s, s.jobs[id]) && s.jobs[id].task.Replace?
    requires Locked(s.jobs[id].pc) && !Swapping(s.jobs[id].pc) && !EarlyPc(s.jobs[id].pc)
    requires EffectOf(s, s.jobs[id], choice).Some? && EffectOf(s, s.jobs[id], choice).value.job.Some?
    ensures Knows(Step(s, id, choice), EffectOf(s, s.jobs[id], choice).value.job.value)
  {}

  lemma RowJobKnowsNext(s: State, id: JobId, choice: Choice)
    requires id in s.jobs && Shape(s.jobs[id]) && Knows(s, s.jobs[id]) && s.jobs[id].task.Update?
    requires Locked(s.jobs[id].pc)
    requires EffectOf(s, s.jobs[id], choice).Some? && EffectOf(s, s.jobs[id], choice).value.job.Some?
    ensures Knows(Step(s, id, choice), EffectOf(s, s.jobs[id], choice).value.job.value)
  {
    if s.jobs[id].pc.Checking? || s.jobs[id].pc.Finding? {
      CheckingKnowsNext(s, id, choice);
    }
  }

  lemma CheckingKnowsNext(s: State, id: JobId, choice: Choice)
    requires id in s.jobs && Shape(s.jobs[id]) && Knows(s, s.jobs[id]) && s.jobs[id].task.Update?
    requires s.jobs[id].pc.Checking? || s.jobs[id].pc.Finding?
    requires EffectOf(s, s.jobs[id], choice).Some? && EffectOf(s, s.jobs[id], choice).value.job.Some?
    ensures Knows(Step(s, id, choice), EffectOf(s, s.jobs[id], choice).value.job.value)
  {}

  lemma DeletionKnowsNext(s: State, id: JobId, choice: Choice)
    requires id in s.jobs && Shape(s.jobs[id]) && Knows(s, s.jobs[id]) && !Stages(s.jobs[id].task) && !s.jobs[id].task.Update?
    requires Locked(s.jobs[id].pc)
    requires EffectOf(s, s.jobs[id], choice).Some? && EffectOf(s, s.jobs[id], choice).value.job.Some?
    ensures Knows(Step(s, id, choice), EffectOf(s, s.jobs[id], choice).value.job.value)
  {}

  // ---------- Refinement of an atomic store ----------

  /** An operation of a store that keeps a row and its content together. */
  datatype Operation = Nothing | SetSite(slug: string, row: Row, tree: Tree) | DropSite(slug: string)

  function Performed(operation: Operation, slug: string, site: Option<(Row, Tree)>): Option<(Row, Tree)> {
    match operation
    case Nothing => site
    case SetSite(set_, row, tree) => if set_ == slug then Some((row, tree)) else site
    case DropSite(dropped) => if dropped == slug then None else site
  }

  /** The operation that a step performs on the atomic store: only four calls perform any. */
  function OperationOf(s: State, job: Job, choice: Choice): Operation
    requires PcFits(job.task, job.pc)
  {
    var applied := choice.Proceed? || (choice.Unsure? && choice.applied);
    match job.pc
    case Committing(now, slug) =>
      if applied && slug in s.sites then SetSite(slug, NewRow(job.task.input, now), s.sites[slug]) else Nothing
    case Recording(now) =>
      var slug := job.task.slug;
      if choice.Proceed? && slug in s.rows && slug in s.sites
      then SetSite(slug, ReplacedRow(s.rows[slug], job.task.input, now), s.sites[slug]) else Nothing
    case Saving(now) =>
      var slug := job.task.slug;
      if applied && slug in s.rows && slug in s.sites
      then SetSite(slug, UpdatedRow(s.rows[slug], job.task.settings, now), s.sites[slug]) else Nothing
    case DeletingRow => if applied then DropSite(job.task.slug) else Nothing
    case _ => Nothing
  }

  /**
   * Whatever the interleaving, a step of a job either leaves the row and content of every slug as they
   * were or performs one atomic operation on one slug.
   */
  lemma StepRefinesAtomicStore(s: State, id: JobId, choice: Choice, slug: string)
    requires Inv(s) && id in s.jobs && FreshName(s, Act(id, choice))
    ensures SiteAt(Step(s, id, choice), slug)
         == if EffectOf(s, s.jobs[id], choice).Some?
            then Performed(OperationOf(s, s.jobs[id], choice), slug, SiteAt(s, slug)) else SiteAt(s, slug)
  {
    var job := s.jobs[id];
    assert Shape(job) && ValidTask(job.task) && Knows(s, job);
    if EffectOf(s, job, choice).Some? {
      var pc := job.pc;
      if !Locked(pc) { UnlockedStepRefines(s, id, choice, slug); }
      else if IdlePc(pc) { IdleStepRefines(s, id, choice, slug); }
      else if pc.Reserving? || pc.Installing? || pc.Committing? { InstallationRefines(s, id, choice, slug); }
      else if Swapping(pc) { SwapStepRefines(s, id, choice, slug); }
      else if pc.Parking? || pc.DroppingParked? { ParkedStepRefines(s, id, choice, slug); }
      else if pc.Saving? { SaveStepRefines(s, id, choice, slug); }
      else if pc.DeletingRow? { DeleteRowStepRefines(s, id, choice, slug); }
      else if pc.DeletingContent? { DeleteContentStepRefines(s, id, choice, slug); }
      else if pc.Unreserving? { UnreserveStepRefines(s, id, choice, slug); }
      else { CleanupStepRefines(s, id, choice, slug); }
    }
  }

  lemma UnlockedStepRefines(s: State, id: JobId, choice: Choice, slug: string)
    requires LockHeldByPc(s) && Disjoint(s) && JobsOk(s) && FreshName(s, Act(id, choice))
    requires id in s.jobs && !Locked(s.jobs[id].pc) && EffectOf(s, s.jobs[id], choice).Some?
    ensures SiteAt(Step(s, id, choice), slug) == SiteAt(s, slug)
  {
    var job := s.jobs[id];
    StepIsIsolated(s, id, choice);
    EffectIsWithinOwn(s, job, choice);
    if s.holder.Some? && EffectOf(s, job, choice).value.job.Some? { ClaimsStayDisjoint(s, id, choice, s.holder.value); }
    LockTakenByAwait(s, id, choice);
    UndisturbedSite(s, Step(s, id, choice), id, slug);
  }

  lemma LockTakenByAwait(s: State, id: JobId, choice: Choice)
    requires id in s.jobs && Shape(s.jobs[id]) && !Locked(s.jobs[id].pc) && EffectOf(s, s.jobs[id], choice).Some?
    requires s.holder != Some(id)
    ensures var after := Step(s, id, choice);
      after.holder != s.holder ==> id in after.jobs && !Swapping(after.jobs[id].pc)
  {}

  /** A job that does not hold the lock cannot disturb the content of any slug. */
  lemma UndisturbedSite(s: State, after: State, id: JobId, slug: string)
    requires LockHeldByPc(s) && Disjoint(s) && id in s.jobs && s.holder != Some(id) && Isolated(s, after, id)
    requires s.holder.Some? && id in after.jobs ==> Claims(after.jobs[id]) !! Claims(s.jobs[s.holder.value])
    requires after.holder != s.holder ==> id in after.jobs && !Swapping(after.jobs[id].pc)
    ensures SiteAt(after, slug) == SiteAt(s, slug)
  {
    if Displaced(s).Some? {
      var holder, parked := s.holder.value, Displaced(s).value.1;
      assert Claims(s.jobs[id]) !! Claims(s.jobs[holder]);
      assert parked in Claims(s.jobs[holder]);
      assert SameAt(after.tmp, s.tmp, parked);
    }
  }

  /** Steps under the lock that change nothing but the job. */
  predicate IdlePc(pc: Pc) {
    || pc.Finding? || pc.Dating? || pc.Choosing? || pc.Inserting? || pc.Declining?
    || pc.RollingBack? || pc.Checking? || pc.Packing?
  }

  lemma IdleStepRefines(s: State, id: JobId, choice: Choice, slug: string)
    requires id in s.jobs && LockHeldByPc(s) && Shape(s.jobs[id])
    requires IdlePc(s.jobs[id].pc) && EffectOf(s, s.jobs[id], choice).Some?
    ensures SiteAt(Step(s, id, choice), slug) == Performed(OperationOf(s, s.jobs[id], choice), slug, SiteAt(s, slug))
  {
    IdleEffect(s, s.jobs[id], choice);
  }

  lemma IdleEffect(s: State, job: Job, choice: Choice)
    requires Shape(job) && IdlePc(job.pc) && EffectOf(s, job, choice).Some?
    ensures var e := EffectOf(s, job, choice).value;
      && e.tmp.Same? && e.site.Same? && e.row.Same? && e.lock.LockSame?
      && e.job.Some? && e.job.value.task == job.task && !Swapping(e.job.value.pc)
  {}

  lemma InstallationRefines(s: State, id: JobId, choice: Choice, slug: string)
    requires id in s.jobs && LockHeldByPc(s) && Shape(s.jobs[id]) && Knows(s, s.jobs[id])
    requires EffectOf(s, s.jobs[id], choice).Some?
    requires s.jobs[id].pc.Reserving? || s.jobs[id].pc.Installing? || s.jobs[id].pc.Committing?
    ensures SiteAt(Step(s, id, choice), slug) == Performed(OperationOf(s, s.jobs[id], choice), slug, SiteAt(s, slug))
  {}

  lemma SwapStepRefines(s: State, id: JobId, choice: Choice, slug: string)
    requires id in s.jobs && LockHeldByPc(s) && Shape(s.jobs[id]) && Knows(s, s.jobs[id])
    requires Swapping(s.jobs[id].pc) && EffectOf(s, s.jobs[id], choice).Some?
    ensures SiteAt(Step(s, id, choice), slug) == Performed(OperationOf(s, s.jobs[id], choice), slug, SiteAt(s, slug))
  {
    var pc := s.jobs[id].pc;
    ParkedNamesAreApart(s.jobs[id].content.staging, s.jobs[id].content.staging);
    if pc.Promoting? { PromotingRefines(s, id, choice, slug); }
    else if pc.Recording? { RecordingRefines(s, id, choice, slug); }
    else if pc.Withdrawing? { WithdrawingRefines(s, id, choice, slug); }
    else { RestoringRefines(s, id, choice, slug); }
  }

  lemma PromotingRefines(s: State, id: JobId, choice: Choice, slug: string)
    requires id in s.jobs && LockHeldByPc(s) && Shape(s.jobs[id]) && Knows(s, s.jobs[id])
    requires s.jobs[id].pc.Promoting? && EffectOf(s, s.jobs[id], choice).Some?
    requires ParkedName(s.jobs[id].content) != s.jobs[id].content.staging
    ensures SiteAt(Step(s, id, choice), slug) == SiteAt(s, slug)
  {}

  lemma RecordingRefines(s: State, id: JobId, choice: Choice, slug: string)
    requires id in s.jobs && LockHeldByPc(s) && Shape(s.jobs[id]) && Knows(s, s.jobs[id])
    requires s.jobs[id].pc.Recording? && EffectOf(s, s.jobs[id], choice).Some?
    ensures SiteAt(Step(s, id, choice), slug) == Performed(OperationOf(s, s.jobs[id], choice), slug, SiteAt(s, slug))
  {}

  lemma WithdrawingRefines(s: State, id: JobId, choice: Choice, slug: string)
    requires id in s.jobs && LockHeldByPc(s) && Shape(s.jobs[id]) && Knows(s, s.jobs[id])
    requires s.jobs[id].pc.Withdrawing? && EffectOf(s, s.jobs[id], choice).Some?
    requires ParkedName(s.jobs[id].content) != s.jobs[id].content.staging
    ensures SiteAt(Step(s, id, choice), slug) == SiteAt(s, slug)
  {}

  lemma RestoringRefines(s: State, id: JobId, choice: Choice, slug: string)
    requires id in s.jobs && LockHeldByPc(s) && Shape(s.jobs[id]) && Knows(s, s.jobs[id])
    requires (s.jobs[id].pc.Restoring? || s.jobs[id].pc.Unparking?) && EffectOf(s, s.jobs[id], choice).Some?
    ensures SiteAt(Step(s, id, choice), slug) == SiteAt(s, slug)
  {}

  lemma ParkedStepRefines(s: State, id: JobId, choice: Choice, slug: string)
    requires id in s.jobs && LockHeldByPc(s) && Shape(s.jobs[id]) && Knows(s, s.jobs[id])
    requires (s.jobs[id].pc.Parking? || s.jobs[id].pc.DroppingParked?) && EffectOf(s, s.jobs[id], choice).Some?
    ensures SiteAt(Step(s, id, choice), slug) == SiteAt(s, slug)
  {}

  lemma SaveStepRefines(s: State, id: JobId, choice: Choice, slug: string)
    requires id in s.jobs && LockHeldByPc(s) && Shape(s.jobs[id]) && Knows(s, s.jobs[id]) && s.jobs[id].pc.Saving?
    requires EffectOf(s, s.jobs[id], choice).Some?
    ensures SiteAt(Step(s, id, choice), slug) == Performed(OperationOf(s, s.jobs[id], choice), slug, SiteAt(s, slug))
  {}

  lemma DeleteRowStepRefines(s: State, id: JobId, choice: Choice, slug: string)
    requires id in s.jobs && LockHeldByPc(s) && Shape(s.jobs[id]) && Knows(s, s.jobs[id]) && s.jobs[id].pc.DeletingRow?
    requires EffectOf(s, s.jobs[id], choice).Some?
    ensures SiteAt(Step(s, id, choice), slug) == Performed(OperationOf(s, s.jobs[id], choice), slug, SiteAt(s, slug))
  {}

  lemma DeleteContentStepRefines(s: State, id: JobId, choice: Choice, slug: string)
    requires id in s.jobs && LockHeldByPc(s) && Shape(s.jobs[id]) && Knows(s, s.jobs[id]) && s.jobs[id].pc.DeletingContent?
    requires EffectOf(s, s.jobs[id], choice).Some?
    ensures SiteAt(Step(s, id, choice), slug) == Performed(OperationOf(s, s.jobs[id], choice), slug, SiteAt(s, slug))
  {}

  lemma UnreserveStepRefines(s: State, id: JobId, choice: Choice, slug: string)
    requires id in s.jobs && LockHeldByPc(s) && Shape(s.jobs[id]) && Knows(s, s.jobs[id])
    requires s.jobs[id].pc.Unreserving?
    requires EffectOf(s, s.jobs[id], choice).Some?
    ensures SiteAt(Step(s, id, choice), slug) == SiteAt(s, slug)
  {}

  lemma CleanupStepRefines(s: State, id: JobId, choice: Choice, slug: string)
    requires id in s.jobs && LockHeldByPc(s) && Shape(s.jobs[id]) && Knows(s, s.jobs[id])
    requires s.jobs[id].pc.Unstaging? || s.jobs[id].pc.Releasing?
    requires EffectOf(s, s.jobs[id], choice).Some?
    ensures SiteAt(Step(s, id, choice), slug) == SiteAt(s, slug)
  {}
}
