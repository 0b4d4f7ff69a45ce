/**
 * The storage protocol as a transition system: committed rows, the `sites` and `tmp` directories, the
 * mutation lock, and one program counter with one ownership record per job. Every system call that
 * another job or a crash can fall between is one step.
 */
module Machine {
  import opened Names
  import opened NewSites
  import opened Passwords
  import opened SiteSettings
  import opened Trees
  import opened Wrappers

  const MAX_STAGING_ATTEMPTS := 8
  const MAX_SLUG_ATTEMPTS := 8

  type JobId = nat

  // ---------- Rows ----------

  datatype Row = Row(
    title: string, visibility: string, passwordHash: Option<Password>, entry: string,
    fileCount: nat, sizeBytes: nat, createdAt: int, updatedAt: int, expiresAt: Option<int>)

  /** The table constraint on access columns. */
  predicate CheckConstraint(row: Row) {
    (row.visibility == "open" || row.visibility == "password")
    && (row.visibility == "password" ==> row.passwordHash.Some?)
  }

  function Visibility(password: Option<Password>): string {
    if password.None? then "open" else "password"
  }

  /** The credential that access checks read: an open row's hash is ignored. */
  function CurrentPassword(row: Row): Option<Password> {
    if row.visibility == "open" then None else row.passwordHash
  }

  predicate IsExpired(row: Row, now: int) {
    row.expiresAt.Some? && row.expiresAt.value <= now
  }

  datatype AccessFault = UnknownVisibility | MissingPassword

  /** How a stored row is decoded for access checks; anything unexpected is an error, never open access. */
  function StoredAccess(row: Row): Result<Option<Password>, AccessFault> {
    if row.visibility == "open" then Ok(None)
    else if row.visibility == "password" then
      match row.passwordHash
      case None => Err(MissingPassword)
      case Some(password) => Ok(Some(password))
    else Err(UnknownVisibility)
  }

  /** The row that a publication commits. */
  function NewRow(input: NewSite, now: int): Row {
    Row(input.title, Visibility(input.password), input.password, input.entry, |input.files|, input.sizeBytes, now, now,
        if input.expiresIn.None? then None else Some(SaturatingAdd(now, input.expiresIn.value)))
  }

  /** The columns that `replace_site` writes. */
  function ReplacedRow(row: Row, input: NewSite, now: int): Row {
    row.(entry := input.entry, fileCount := |input.files|, sizeBytes := input.sizeBytes, updatedAt := now)
  }

  /** The password a settings change leaves; keeping one needs an already protected row. */
  function ResolvedPassword(row: Row, access: Access): Option<Password> {
    match access
    case OpenAccess => None
    case KeepAccess => CurrentPassword(row)
    case SetAccess(password) => Some(password)
  }

  /** The columns that `update_site` writes. */
  function UpdatedRow(row: Row, settings: Settings, now: int): Row {
    var password := ResolvedPassword(row, settings.access);
    row.(title := settings.title, entry := settings.entry, visibility := Visibility(password),
         passwordHash := password, updatedAt := now,
         expiresAt := ResolvedExpiry(settings.expiry, row.expiresAt, now))
  }

  // ---------- Jobs ----------

  /** The paths that one job has created and still owns. */
  datatype Ownership = Ownership(staging: string, stagingRemoved: bool, installed: Option<string>, preserveInstalled: bool)

  const NO_CONTENT := Ownership("", true, None, false)

  function ParkedName(content: Ownership): string {
    WithExtensionOld(content.staging)
  }

  datatype Task =
    | Publish(input: NewSite)
    | Replace(slug: string, input: NewSite)
    | Update(slug: string, settings: Settings)
    | Delete(slug: string)
    | Archive(slug: string)

  datatype Pc =
    // Staging, outside the lock.
    | Opening(attempt: nat) | Writing(next: nat) | Discarding | Waiting
    // Publication.
    | Choosing(now: int, attempt: nat)
    | Inserting(now: int, attempt: nat, slug: string)
    | Reserving(now: int, attempt: nat, slug: string)
    | Declining(now: int, attempt: nat)
    | Installing(now: int, slug: string)
    | Committing(now: int, slug: string)
    | RollingBack
    // Looking up the row, reading the clock.
    | Finding | Dating
    // Replacement.
    | Parking(now: int) | Promoting(now: int) | Unparking
    | Recording(now: int) | Withdrawing | Restoring | DroppingParked
    // Settings, deletion, download.
    | Checking | Saving(now: int) | DeletingRow | DeletingContent | Packing
    // Cleanup under the lock.
    | Unreserving | Unstaging | Releasing

  datatype Job = Job(task: Task, pc: Pc, content: Ownership)

  predicate Stages(task: Task) {
    task.Publish? || task.Replace?
  }

  predicate Locked(pc: Pc) {
    !(pc.Opening? || pc.Writing? || pc.Discarding? || pc.Waiting?)
  }

  predicate ValidTask(task: Task) {
    match task
    case Publish(input) => ValidSite(input) && (input.slug.Some? ==> ValidSlug(input.slug.value))
    case Replace(slug, input) => ValidSlug(slug) && ValidSite(input)
    case Update(slug, settings) => ValidSlug(slug) && ValidFilename(settings.entry)
    case Delete(slug) => ValidSlug(slug)
    case Archive(slug) => ValidSlug(slug)
  }

  // ---------- States ----------

  /** Boot clears `tmp`, then orphaned content, then rows without content. */
  datatype Phase = Serving | ClearingTmp | ClearingSites | DroppingRows

  /**
   * `stale` remembers the slugs whose content was swapped when the process died before the row was
   * written; it is no part of the system, only of what is said about it.
   */
  datatype State = State(
    phase: Phase, rows: map<string, Row>, sites: map<string, Tree>, tmp: map<string, Tree>,
    holder: Option<JobId>, jobs: map<JobId, Job>, stale: set<string>)

  const EMPTY_STORE := State(Serving, map[], map[], map[], None, map[], {})

  /** What the environment decides about a step. */
  datatype Choice =
    | Proceed                   // the call succeeds
    | Fail                      // it fails and changes nothing
    | Pick(name: string)        // a generated or requested name
    | At(now: int)              // the clock
    | Spoil(tree: Tree)         // a write fails part way
    | Leave(tree: Tree)         // a recursive removal has come this far
    | Unsure(applied: bool)     // a database write whose acknowledgement was lost

  datatype BootChoice =
    | RemoveTmp(name: string) | ShrinkTmp(name: string, tree: Tree) | TmpDone
    | RemoveSite(name: string) | ShrinkSite(name: string, tree: Tree) | SitesDone
    | DropRow(slug: string) | RowsDone
    | Miss                      // a call fails; what it has changed, if anything, is an event of its own

  datatype Event =
    | Start(id: JobId, task: Task)
    | Act(id: JobId, choice: Choice)
    | Crash
    | Boot(decision: BootChoice)

  // ---------- Effects of one step ----------

  /** What one system call does to one directory or table: at most one name is written or erased. */
  datatype Change<T> = Same | Write(name: string, value: T) | Erase(name: string)

  function Changed<T>(entries: map<string, T>, change: Change<T>): map<string, T> {
    match change
    case Same => entries
    case Write(name, value) => entries[name := value]
    case Erase(name) => entries - {name}
  }

  datatype LockChange = LockSame | Acquire | Release

  /**
   * The effect of a step: the job's next state unless it has ended, one change to each of `tmp`, `sites`
   * and the rows, and whether the written row now describes its content.
   */
  datatype Effect = Effect(
    job: Option<Job>, tmp: Change<Tree>, site: Change<Tree>, row: Change<Row>, settles: bool, lock: LockChange)

  /** Only the job itself changes. */
  function Moves(job: Job, pc: Pc): Effect {
    Effect(Some(job.(pc := pc)), Same, Same, Same, false, LockSame)
  }

  const ENDS := Effect(None, Same, Same, Same, false, LockSame)

  function Touched<T>(change: Change<T>): set<string> {
    if change.Same? then {} else {change.name}
  }

  function Apply(s: State, id: JobId, e: Effect): State {
    s.(jobs := if e.job.Some? then s.jobs[id := e.job.value] else s.jobs - {id},
       tmp := Changed(s.tmp, e.tmp),
       sites := Changed(s.sites, e.site),
       rows := Changed(s.rows, e.row),
       stale := if e.settles then s.stale - Touched(e.row) else s.stale,
       holder := if e.lock.LockSame? then s.holder else if e.lock.Acquire? then Some(id) else None)
  }

  /** A directory can be renamed onto nothing or onto an empty directory. */
  predicate FreeFor(directory: map<string, Tree>, name: string) {
    name !in directory || directory[name] == EMPTY_DIRECTORY
  }

  /** Something other than an empty directory stands where the job will want to park the served directory. */
  predicate Obstructed(s: State, id: JobId) {
    id in s.jobs && !FreeFor(s.tmp, ParkedName(s.jobs[id].content))
  }

  function Slug(task: Task): string
    requires !task.Publish?
  {
    task.slug
  }

  /** Where a job goes once it has nothing left to do but clean up. */
  function Ending(task: Task): Pc {
    if Stages(task) then Unreserving else Releasing
  }

  /** `Content::new`: exclusive creation under a generated name, a bounded number of times. */
  function OpenStaging(s: State, job: Job, choice: Choice): Option<Effect>
    requires job.pc.Opening?
  {
    match choice
    case Pick(name) =>
      if !ValidSlug(name) then None
      else if name in s.tmp then
        if job.pc.attempt + 1 < MAX_STAGING_ATTEMPTS then Some(Moves(job, Opening(job.pc.attempt + 1))) else Some(ENDS)
      else
        Some(Moves(job.(content := Ownership(name, false, None, false)), Writing(0)).(tmp := Write(name, EMPTY_DIRECTORY)))
    case Fail => Some(ENDS)
    case _ => None
  }

  /** `Content::write`, one file a step; a failure leaves some tree behind and gives up. */
  function WriteFile(s: State, job: Job, choice: Choice): Option<Effect>
    requires job.pc.Writing? && Stages(job.task)
  {
    var staging, next := job.content.staging, job.pc.next;
    match choice
    case Proceed =>
      if next >= |job.task.input.files| then Some(Moves(job, Waiting))
      else if staging !in s.tmp then Some(Moves(job, Discarding))
      else
        (match WriteOne(s.tmp[staging], job.task.input.files[next])
         case Some(t) => Some(Moves(job, Writing(next + 1)).(tmp := Write(staging, t)))
         case None => Some(Moves(job, Discarding)))
    case Spoil(tree) => Some(Moves(job, Discarding).(tmp := Write(staging, tree)))
    case Fail => Some(Moves(job, Discarding))
    case _ => None
  }

  /** Cleanup of a staging directory that never reached the lock. */
  function Discard(job: Job, choice: Choice): Option<Effect> {
    match choice
    case Proceed => Some(ENDS.(tmp := Erase(job.content.staging)))
    case Leave(tree) => Some(Moves(job, Discarding).(tmp := Write(job.content.staging, tree)))
    case Fail => Some(ENDS)
    case _ => None
  }

  function Await(s: State, job: Job, choice: Choice): Option<Effect> {
    if choice.Proceed? && s.holder.None?
    then Some(Moves(job, if job.task.Publish? then Dating else Finding).(lock := Acquire))
    else None
  }

  function Find(s: State, job: Job, choice: Choice): Option<Effect>
    requires !job.task.Publish?
  {
    match choice
    case Proceed =>
      if Slug(job.task) !in s.rows then Some(Moves(job, Ending(job.task)))
      else
        Some(Moves(job, match job.task
                        case Replace(_, _) => Dating
                        case Update(_, _) => Checking
                        case Delete(_) => DeletingRow
                        case Archive(_) => Packing))
    case Fail => Some(Moves(job, Ending(job.task)))
    case _ => None
  }

  function ReadClock(job: Job, choice: Choice): Option<Effect> {
    match choice
    case At(now) =>
      Some(Moves(job, if job.task.Publish? then Choosing(now, 0) else if job.task.Replace? then Parking(now) else Saving(now)))
    case Fail => Some(Moves(job, Ending(job.task)))
    case _ => None
  }

  /** The requested slug or a generated one; opening the transaction may fail as well. */
  function ChooseSlug(job: Job, choice: Choice): Option<Effect>
    requires job.pc.Choosing? && job.task.Publish?
  {
    match choice
    case Pick(slug) =>
      if ValidSlug(slug) && (job.task.input.slug.Some? ==> job.task.input.slug.value == slug)
      then Some(Moves(job, Inserting(job.pc.now, job.pc.attempt, slug))) else None
    case Fail => Some(Moves(job, Unreserving))
    case _ => None
  }

  /** The uncommitted insertion: only a unique violation makes the attempt decline. */
  function InsertRow(s: State, job: Job, choice: Choice): Option<Effect>
    requires job.pc.Inserting?
  {
    match choice
    case Proceed =>
      Some(Moves(job, if job.pc.slug in s.rows then Declining(job.pc.now, job.pc.attempt)
                      else Reserving(job.pc.now, job.pc.attempt, job.pc.slug)))
    case Fail => Some(Moves(job, RollingBack))
    case _ => None
  }

  /** Exclusive creation of the destination, adopting nothing that exists. */
  function ReserveDestination(s: State, job: Job, choice: Choice): Option<Effect>
    requires job.pc.Reserving?
  {
    match choice
    case Proceed =>
      if job.pc.slug in s.sites then Some(Moves(job, Declining(job.pc.now, job.pc.attempt)))
      else
        Some(Moves(job.(content := job.content.(installed := Some(job.pc.slug))), Installing(job.pc.now, job.pc.slug))
             .(site := Write(job.pc.slug, EMPTY_DIRECTORY)))
    case Fail => Some(Moves(job, RollingBack))
    case _ => None
  }

  /** Rollback of an occupied candidate, then the next one if the slug was not requested. */
  function Decline(job: Job, choice: Choice): Option<Effect>
    requires job.pc.Declining? && job.task.Publish?
  {
    match choice
    case Proceed =>
      if job.task.input.slug.Some? || job.pc.attempt + 1 >= MAX_SLUG_ATTEMPTS then Some(Moves(job, Unreserving))
      else Some(Moves(job, Choosing(job.pc.now, job.pc.attempt + 1)))
    case Fail => Some(Moves(job, Unreserving))
    case _ => None
  }

  /** The rename of staging onto the reservation. */
  function Install(s: State, job: Job, choice: Choice): Option<Effect>
    requires job.pc.Installing?
  {
    var staging, slug := job.content.staging, job.pc.slug;
    match choice
    case Proceed =>
      if staging in s.tmp && FreeFor(s.sites, slug) then
        Some(Moves(job.(content := job.content.(stagingRemoved := true)), Committing(job.pc.now, slug))
             .(site := Write(slug, s.tmp[staging]), tmp := Erase(staging)))
      else Some(Moves(job, RollingBack))
    case Fail => Some(Moves(job, RollingBack))
    case _ => None
  }

  /** The commit, whose failure may have applied; installed bytes are preserved whatever comes of it. */
  function Commit(job: Job, choice: Choice): Option<Effect>
    requires job.pc.Committing? && job.task.Publish?
  {
    var attempted := Moves(job.(content := job.content.(preserveInstalled := true)), Unreserving);
    var committed := attempted.(row := Write(job.pc.slug, NewRow(job.task.input, job.pc.now)), settles := true);
    match choice
    case Proceed => Some(committed)
    case Unsure(applied) => Some(if applied then committed else attempted)
    case _ => None
  }

  function RollBack(job: Job, choice: Choice): Option<Effect> {
    if choice.Proceed? || choice.Fail? then Some(Moves(job, Unreserving)) else None
  }

  /** The first rename of `swap_into`: the served directory moves to the parked name. */
  function Park(s: State, job: Job, choice: Choice): Option<Effect>
    requires job.pc.Parking? && job.task.Replace?
  {
    var slug, parked := job.task.slug, ParkedName(job.content);
    match choice
    case Proceed =>
      if job.content.staging in s.tmp && slug in s.sites && FreeFor(s.tmp, parked) then
        Some(Moves(job, Promoting(job.pc.now)).(tmp := Write(parked, s.sites[slug]), site := Erase(slug)))
      else Some(Moves(job, Unreserving))
    case Fail => Some(Moves(job, Unreserving))
    case _ => None
  }

  /** The second rename of `swap_into`: staging takes the served name. */
  function Promote(s: State, job: Job, choice: Choice): Option<Effect>
    requires job.pc.Promoting? && job.task.Replace?
  {
    var slug, staging := job.task.slug, job.content.staging;
    match choice
    case Proceed =>
      if staging in s.tmp && FreeFor(s.sites, slug) then
        Some(Moves(job.(content := job.content.(stagingRemoved := true)), Recording(job.pc.now))
             .(site := Write(slug, s.tmp[staging]), tmp := Erase(staging)))
      else Some(Moves(job, Unparking))
    case Fail => Some(Moves(job, Unparking))
    case _ => None
  }

  /** The restoring rename after a failed promotion. */
  function Unpark(s: State, job: Job, choice: Choice): Option<Effect>
    requires job.pc.Unparking? && job.task.Replace?
  {
    var slug, parked := job.task.slug, ParkedName(job.content);
    if choice.Proceed? && parked in s.tmp && FreeFor(s.sites, slug)
    then Some(Moves(job, Unreserving).(site := Write(slug, s.tmp[parked]), tmp := Erase(parked)))
    else None
  }

  /** The UPDATE after the swap; an error or a missing row asks for the swap to be undone. */
  function Record(s: State, job: Job, choice: Choice): Option<Effect>
    requires job.pc.Recording? && job.task.Replace?
  {
    var slug := job.task.slug;
    match choice
    case Proceed =>
      if slug in s.rows then
        Some(Moves(job, DroppingParked)
             .(row := Write(slug, ReplacedRow(s.rows[slug], job.task.input, job.pc.now)), settles := true))
      else Some(Moves(job, Withdrawing))
    case Fail => Some(Moves(job, Withdrawing))
    case _ => None
  }

  /** The first rename of `swap_back`: the new content moves back to the staging name. */
  function Withdraw(s: State, job: Job, choice: Choice): Option<Effect>
    requires job.pc.Withdrawing? && job.task.Replace?
  {
    var slug, staging := job.task.slug, job.content.staging;
    if choice.Proceed? && slug in s.sites && FreeFor(s.tmp, staging)
    then Some(Moves(job, Restoring).(tmp := Write(staging, s.sites[slug]), site := Erase(slug)))
    else None
  }

  /** The second rename of `swap_back`: the parked directory is served again. */
  function Restore(s: State, job: Job, choice: Choice): Option<Effect>
    requires job.pc.Restoring? && job.task.Replace?
  {
    var slug, parked := job.task.slug, ParkedName(job.content);
    if choice.Proceed? && parked in s.tmp && FreeFor(s.sites, slug)
    then
      Some(Moves(job.(content := job.content.(stagingRemoved := false)), Unreserving)
           .(site := Write(slug, s.tmp[parked]), tmp := Erase(parked)))
    else None
  }

  /** Removal of the replaced content, whose failure is only logged. */
  function DropParked(job: Job, choice: Choice): Option<Effect> {
    match choice
    case Proceed => Some(Moves(job, Unreserving).(tmp := Erase(ParkedName(job.content))))
    case Leave(tree) => Some(Moves(job, DroppingParked).(tmp := Write(ParkedName(job.content), tree)))
    case Fail => Some(Moves(job, Unreserving))
    case _ => None
  }

  /** The current row must allow the access change and the entry must be a regular top-level file. */
  function Check(s: State, job: Job, choice: Choice): Option<Effect>
    requires job.task.Update?
  {
    var slug, settings := job.task.slug, job.task.settings;
    match choice
    case Proceed =>
      if slug in s.rows
         && (settings.access.KeepAccess? ==> CurrentPassword(s.rows[slug]).Some?)
         && slug in s.sites && IsFile(s.sites[slug], [settings.entry])
      then Some(Moves(job, Dating)) else Some(Moves(job, Releasing))
    case Fail => Some(Moves(job, Releasing))
    case _ => None
  }

  function Save(s: State, job: Job, choice: Choice): Option<Effect>
    requires job.pc.Saving? && job.task.Update?
  {
    var slug := job.task.slug;
    var applied := choice.Proceed? || (choice.Unsure? && choice.applied);
    if !choice.Proceed? && !choice.Unsure? then None
    else if applied && slug in s.rows then
      Some(Moves(job, Releasing).(row := Write(slug, UpdatedRow(s.rows[slug], job.task.settings, job.pc.now))))
    else Some(Moves(job, Releasing))
  }

  /** Metadata goes first; an unconfirmed deletion removes no bytes. */
  function DeleteRow(job: Job, choice: Choice): Option<Effect>
    requires job.task.Delete?
  {
    match choice
    case Proceed => Some(Moves(job, DeletingContent).(row := Erase(job.task.slug), settles := true))
    case Unsure(applied) =>
      if applied then Some(Moves(job, Releasing).(row := Erase(job.task.slug), settles := true))
      else Some(Moves(job, Releasing))
    case Fail => Some(Moves(job, Releasing))
    case _ => None
  }

  function DeleteContent(s: State, job: Job, choice: Choice): Option<Effect>
    requires job.task.Delete?
  {
    match choice
    case Proceed => Some(Moves(job, Releasing).(site := Erase(job.task.slug)))
    case Leave(tree) =>
      if job.task.slug in s.sites then Some(Moves(job, DeletingContent).(site := Write(job.task.slug, tree))) else None
    case Fail => Some(Moves(job, Releasing))
    case _ => None
  }

  function PackContent(job: Job, choice: Choice): Option<Effect> {
    if choice.Proceed? || choice.Fail? then Some(Moves(job, Releasing)) else None
  }

  /** Whether cleanup removes the reservation. */
  predicate Unused(content: Ownership) {
    content.installed.Some? && !content.preserveInstalled && !content.stagingRemoved
  }

  /** Removal of an unused reservation, which must be empty; failing does not stop the cleanup. */
  function Unreserve(s: State, job: Job, choice: Choice): Option<Effect> {
    var content := job.content;
    match choice
    case Proceed =>
      if Unused(content) && content.installed.value in s.sites && s.sites[content.installed.value] == EMPTY_DIRECTORY
      then Some(Moves(job, Unstaging).(site := Erase(content.installed.value)))
      else Some(Moves(job, Unstaging))
    case Fail => Some(Moves(job, Unstaging))
    case _ => None
  }

  function Unstage(job: Job, choice: Choice): Option<Effect> {
    if job.content.stagingRemoved then (if choice.Proceed? then Some(Moves(job, Releasing)) else None)
    else
      match choice
      case Proceed => Some(Moves(job, Releasing).(tmp := Erase(job.content.staging)))
      case Leave(tree) => Some(Moves(job, Unstaging).(tmp := Write(job.content.staging, tree)))
      case Fail => Some(Moves(job, Releasing))
      case _ => None
  }

  function ReleaseLock(choice: Choice): Option<Effect> {
    if choice.Proceed? then Some(ENDS.(lock := Release)) else None
  }

  /** The program counters that each kind of job passes through. */
  predicate PcFits(task: Task, pc: Pc) {
    match pc
    case Opening(_) | Writing(_) | Discarding | Unreserving | Unstaging => Stages(task)
    case Waiting | Releasing => true
    case Choosing(_, _) | Inserting(_, _, _) | Reserving(_, _, _) | Declining(_, _)
       | Installing(_, _) | Committing(_, _) | RollingBack => task.Publish?
    case Finding => !task.Publish?
    case Dating => Stages(task) || task.Update?
    case Parking(_) | Promoting(_) | Unparking | Recording(_) | Withdrawing | Restoring | DroppingParked => task.Replace?
    case Checking | Saving(_) => task.Update?
    case DeletingRow | DeletingContent => task.Delete?
    case Packing => task.Archive?
  }

  /** The effect of a job's next system call, if the environment's decision fits it. */
  function EffectOf(s: State, job: Job, choice: Choice): Option<Effect> {
    if !PcFits(job.task, job.pc) then None
    else
      match job.pc
      case Opening(_) => OpenStaging(s, job, choice)
      case Writing(_) => WriteFile(s, job, choice)
      case Discarding => Discard(job, choice)
      case Waiting => Await(s, job, choice)
      case Choosing(_, _) => ChooseSlug(job, choice)
      case Inserting(_, _, _) => InsertRow(s, job, choice)
      case Reserving(_, _, _) => ReserveDestination(s, job, choice)
      case Declining(_, _) => Decline(job, choice)
      case Installing(_, _) => Install(s, job, choice)
      case Committing(_, _) => Commit(job, choice)
      case RollingBack => RollBack(job, choice)
      case Finding => Find(s, job, choice)
      case Dating => ReadClock(job, choice)
      case Parking(_) => Park(s, job, choice)
      case Promoting(_) => Promote(s, job, choice)
      case Unparking => Unpark(s, job, choice)
      case Recording(_) => Record(s, job, choice)
      case Withdrawing => Withdraw(s, job, choice)
      case Restoring => Restore(s, job, choice)
      case DroppingParked => DropParked(job, choice)
      case Checking => Check(s, job, choice)
      case Saving(_) => Save(s, job, choice)
      case DeletingRow => DeleteRow(job, choice)
      case DeletingContent => DeleteContent(s, job, choice)
      case Packing => PackContent(job, choice)
      case Unreserving => Unreserve(s, job, choice)
      case Unstaging => Unstage(job, choice)
      case Releasing => ReleaseLock(choice)
  }

  /** One system call of one job; a decision that does not fit changes nothing. */
  function Step(s: State, id: JobId, choice: Choice): State {
    if id !in s.jobs then s
    else
      match EffectOf(s, s.jobs[id], choice)
      case None => s
      case Some(e) => Apply(s, id, e)
  }

  // ---------- Start, crash and boot ----------

  function Started(s: State, id: JobId, task: Task): State {
    if !s.phase.Serving? || id in s.jobs || !ValidTask(task) then s
    else s.(jobs := s.jobs[id := Job(task, if Stages(task) then Opening(0) else Waiting, NO_CONTENT)])
  }

  /** The slug whose directory already holds new content while its row still describes the old. */
  function Torn(s: State): set<string> {
    if s.holder.Some? && s.holder.value in s.jobs then
      var job := s.jobs[s.holder.value];
      if job.task.Replace? && (job.pc.Recording? || job.pc.Withdrawing?) then {job.task.slug} else {}
    else {}
  }

  /** Process exit: jobs and uncommitted transactions vanish; files and committed rows stay. */
  function Crashed(s: State): State {
    s.(phase := ClearingTmp, holder := None, jobs := map[], stale := s.stale + Torn(s))
  }

  predicate Orphaned(s: State, name: string) {
    name in s.sites && name !in s.rows
  }

  /** One call of `reconcile`, which runs before any job is admitted. */
  function BootStep(s: State, decision: BootChoice): State {
    match s.phase
    case Serving => s
    case ClearingTmp =>
      (match decision
       case RemoveTmp(name) => s.(tmp := s.tmp - {name})
       case ShrinkTmp(name, tree) => if name in s.tmp then s.(tmp := s.tmp[name := tree]) else s
       case TmpDone => s.(phase := ClearingSites)
       case _ => s)
    case ClearingSites =>
      (match decision
       case RemoveSite(name) => if Orphaned(s, name) then s.(sites := s.sites - {name}) else s
       case ShrinkSite(name, tree) => if Orphaned(s, name) then s.(sites := s.sites[name := tree]) else s
       case SitesDone => s.(phase := DroppingRows)
       case _ => s)
    case DroppingRows =>
      (match decision
       case DropRow(slug) =>
         if slug in s.rows && slug !in s.sites then s.(rows := s.rows - {slug}, stale := s.stale - {slug}) else s
       case RowsDone => if s.rows.Keys <= s.sites.Keys then s.(phase := Serving) else s
       case _ => s)
  }

  function Next(s: State, event: Event): State {
    match event
    case Start(id, task) => Started(s, id, task)
    case Act(id, choice) => Step(s, id, choice)
    case Crash => Crashed(s)
    case Boot(decision) => BootStep(s, decision)
  }
}
