/** Safety of the storage protocol over every run: any interleaving, fault, crash and boot. */
module Protocol {
  import opened Invariants
  import opened Machine
  import opened Names
  import opened NewSites
  import opened Runs
  import opened Trees
  import opened Wrappers

  // ---------- One step of a job ----------

  lemma StagedInputIsConsistent(row: Row, input: NewSite, tree: Tree)
    requires ValidSite(input) && WriteAll(input.files) == Some(tree)
    requires row.fileCount == |input.files| && row.sizeBytes == input.sizeBytes && row.entry == input.entry
    ensures Whole(tree) && Consistent(row, tree)
  {
    assert Staged(input.files, tree) && Describes(row, input.files);
  }

  /** Naming another top-level file of the directory keeps a row consistent. */
  lemma AnotherEntryIsConsistent(row: Row, tree: Tree, other: Row)
    requires Consistent(row, tree) && ValidFilename(other.entry) && IsFile(tree, [other.entry])
    requires other.fileCount == row.fileCount && other.sizeBytes == row.sizeBytes
    ensures Consistent(other, tree)
  {
    var files :| Staged(files, tree) && Describes(row, files);
    StagedFiles(files, tree);
    assert [other.entry] in FilePaths(tree);
    assert FileAt(tree, [other.entry]) in files && FileAt(tree, [other.entry]).name == other.entry;
    assert Describes(other, files);
  }

  /** What an operation writes is a valid row with whole content, described unless the slug was stale. */
  ghost predicate SoundOperation(operation: Operation, stale: set<string>) {
    operation.SetSite? ==>
      && ValidSlug(operation.slug) && CheckConstraint(operation.row) && Whole(operation.tree)
      && (operation.slug !in stale ==> Consistent(operation.row, operation.tree))
  }

  /** What the operation of a step writes is sound. */
  lemma OperationIsSound(s: State, id: JobId, choice: Choice)
    requires Inv(s) && id in s.jobs && EffectOf(s, s.jobs[id], choice).Some?
    ensures SoundOperation(OperationOf(s, s.jobs[id], choice), Step(s, id, choice).stale)
  {
    var job := s.jobs[id];
    assert Shape(job) && ValidTask(job.task) && Knows(s, job);
    if job.pc.Saving? {
      if job.task.slug in s.rows { assert SiteOk(s, job.task.slug); }
      SaveIsSound(s, job, choice);
      SavesSettleNothing(s, id, choice);
    } else {
      if job.pc.Recording? { assert SiteOk(s, job.task.slug); }
      InstallationIsSound(s, job, choice);
    }
  }

  lemma SavesSettleNothing(s: State, id: JobId, choice: Choice)
    requires id in s.jobs && s.jobs[id].pc.Saving?
    ensures Step(s, id, choice).stale == s.stale
  {}

  lemma InstallationIsSound(s: State, job: Job, choice: Choice)
    requires Shape(job) && ValidTask(job.task) && Knows(s, job) && !job.pc.Saving?
    requires job.pc.Recording? ==> SiteOk(s, job.task.slug)
    ensures SoundOperation(OperationOf(s, job, choice), {})
  {
    var operation := OperationOf(s, job, choice);
    if operation.SetSite? { StagedInputIsConsistent(operation.row, job.task.input, operation.tree); }
  }

  lemma SaveIsSound(s: State, job: Job, choice: Choice)
    requires Shape(job) && ValidTask(job.task) && Knows(s, job) && job.pc.Saving?
    requires job.task.slug in s.rows ==> SiteOk(s, job.task.slug)
    requires Displaced(s).None?
    ensures SoundOperation(OperationOf(s, job, choice), s.stale)
  {
    var slug := job.task.slug;
    if slug in s.rows && slug in s.sites {
      assert ViewAt(s, slug) == Some(s.sites[slug]);
      if slug !in s.stale {
        AnotherEntryIsConsistent(s.rows[slug], s.sites[slug], UpdatedRow(s.rows[slug], job.task.settings, job.pc.now));
      }
    }
  }

  /** The row that a step writes or erases is the one its operation says. */
  ghost predicate RowFollows(operation: Operation, e: Effect) {
    match operation
    case Nothing => e.row.Same?
    case SetSite(slug, row, _) => e.row == Write(slug, row)
    case DropSite(slug) => e.row == Erase(slug) && e.settles
  }

  lemma RowFollowsOperation(s: State, job: Job, choice: Choice)
    requires Shape(job) && Knows(s, job) && EffectOf(s, job, choice).Some?
    ensures RowFollows(OperationOf(s, job, choice), EffectOf(s, job, choice).value)
  {
    if !Locked(job.pc) || EarlyPc(job.pc) { EarlyRowsAreKept(s, job, choice); }
    else if job.task.Publish? { PublishRowFollows(s, job, choice); }
    else if Swapping(job.pc) { SwapRowFollows(s, job, choice); }
    else { LateRowFollows(s, job, choice); }
  }

  lemma EarlyRowsAreKept(s: State, job: Job, choice: Choice)
    requires Shape(job) && EffectOf(s, job, choice).Some? && (!Locked(job.pc) || EarlyPc(job.pc))
    ensures OperationOf(s, job, choice).Nothing? && EffectOf(s, job, choice).value.row.Same?
  {}

  lemma PublishRowFollows(s: State, job: Job, choice: Choice)
    requires Shape(job) && Knows(s, job) && EffectOf(s, job, choice).Some?
    requires Locked(job.pc) && !EarlyPc(job.pc) && job.task.Publish?
    ensures RowFollows(OperationOf(s, job, choice), EffectOf(s, job, choice).value)
  {}

  lemma SwapRowFollows(s: State, job: Job, choice: Choice)
    requires Shape(job) && Knows(s, job) && EffectOf(s, job, choice).Some? && Swapping(job.pc)
    ensures RowFollows(OperationOf(s, job, choice), EffectOf(s, job, choice).value)
  {}

  lemma LateRowFollows(s: State, job: Job, choice: Choice)
    requires Shape(job) && Knows(s, job) && EffectOf(s, job, choice).Some?
    requires Locked(job.pc) && !EarlyPc(job.pc) && !Swapping(job.pc) && !job.task.Publish?
    ensures RowFollows(OperationOf(s, job, choice), EffectOf(s, job, choice).value)
  {}

  lemma StepKeepsSites(s: State, id: JobId, choice: Choice)
    requires Inv(s) && id in s.jobs && FreshName(s, Act(id, choice)) && EffectOf(s, s.jobs[id], choice).Some?
    ensures SitesOk(Step(s, id, choice)) && Step(s, id, choice).stale <= Step(s, id, choice).rows.Keys
  {
    var job, after := s.jobs[id], Step(s, id, choice);
    var e, operation := EffectOf(s, job, choice).value, OperationOf(s, job, choice);
    assert Shape(job) && Knows(s, job);
    RowFollowsOperation(s, job, choice);
    OperationIsSound(s, id, choice);
    forall slug | slug in after.rows ensures SiteOk(after, slug) {
      StepRefinesAtomicStore(s, id, choice, slug);
      SiteStaysOk(s, after, id, e, operation, slug);
    }
  }

  lemma SiteStaysOk(s: State, after: State, id: JobId, e: Effect, operation: Operation, slug: string)
    requires Inv(s) && id in s.jobs && after == Apply(s, id, e) && RowFollows(operation, e) && slug in after.rows
    requires SiteAt(after, slug) == Performed(operation, slug, SiteAt(s, slug))
    requires SoundOperation(operation, after.stale)
    ensures SiteOk(after, slug)
  {
    if slug in s.rows { assert SiteOk(s, slug); }
  }

  lemma StepKeepsJobs(s: State, id: JobId, choice: Choice)
    requires Inv(s) && id in s.jobs && FreshName(s, Act(id, choice)) && EffectOf(s, s.jobs[id], choice).Some?
    ensures JobsOk(Step(s, id, choice))
  {
    var after, e := Step(s, id, choice), EffectOf(s, s.jobs[id], choice).value;
    EffectIsWithinOwn(s, s.jobs[id], choice);
    StepIsIsolated(s, id, choice);
    if e.job.Some? { StepperKnows(s, id, choice); }
    forall other | other in s.jobs && other != id ensures Knows(after, s.jobs[other]) {
      OthersAreUndisturbed(s, id, choice, other);
    }
  }

  lemma StepKeepsOwnership(s: State, id: JobId, choice: Choice)
    requires Inv(s) && id in s.jobs && FreshName(s, Act(id, choice)) && EffectOf(s, s.jobs[id], choice).Some?
    ensures Disjoint(Step(s, id, choice)) && LockHeldByPc(Step(s, id, choice))
  {
    StepKeepsClaimsApart(s, id, choice);
    EffectIsWithinOwn(s, s.jobs[id], choice);
    LockFollowsPc(s, id, choice, EffectOf(s, s.jobs[id], choice).value);
  }

  lemma StepKeepsClaimsApart(s: State, id: JobId, choice: Choice)
    requires Inv(s) && id in s.jobs && FreshName(s, Act(id, choice)) && EffectOf(s, s.jobs[id], choice).Some?
    ensures Disjoint(Step(s, id, choice))
  {
    var after := Step(s, id, choice);
    StepIsIsolated(s, id, choice);
    forall other | other in s.jobs && other != id
      ensures id in after.jobs ==> Claims(after.jobs[id]) !! Claims(s.jobs[other])
    {
      OthersAreUndisturbed(s, id, choice, other);
    }
  }

  lemma OthersAreUndisturbed(s: State, id: JobId, choice: Choice, other: JobId)
    requires Inv(s) && FreshName(s, Act(id, choice)) && id in s.jobs && other in s.jobs && other != id
    requires EffectOf(s, s.jobs[id], choice).Some?
    ensures var after := Step(s, id, choice);
      && Knows(after, s.jobs[other])
      && (id in after.jobs ==> Claims(after.jobs[id]) !! Claims(s.jobs[other]))
  {
    StepIsIsolated(s, id, choice);
    if EffectOf(s, s.jobs[id], choice).value.job.Some? { ClaimsStayDisjoint(s, id, choice, other); }
    OthersStillKnow(s, Step(s, id, choice), id, other);
  }

  lemma LockFollowsPc(s: State, id: JobId, choice: Choice, e: Effect)
    requires LockHeldByPc(s) && id in s.jobs && WithinOwn(s, s.jobs[id], choice, e)
    requires e.lock.Acquire? ==> s.holder.None?
    ensures LockHeldByPc(Apply(s, id, e))
  {}

  lemma StepKeepsInvariant(s: State, id: JobId, choice: Choice)
    requires Inv(s) && id in s.jobs && FreshName(s, Act(id, choice))
    ensures Inv(Step(s, id, choice))
  {
    if EffectOf(s, s.jobs[id], choice).Some? {
      StepKeepsSites(s, id, choice);
      StepKeepsJobs(s, id, choice);
      StepKeepsOwnership(s, id, choice);
      assert Step(s, id, choice).phase == s.phase;
    }
  }

  // ---------- Start, crash and boot ----------

  lemma StartKeepsSite(s: State, id: JobId, task: Task, slug: string)
    requires Inv(s)
    ensures SiteAt(Started(s, id, task), slug) == SiteAt(s, slug)
  {
    assert s.holder.Some? ==> s.holder.value in s.jobs;
    NewJobShowsSame(s, id, task, slug);
  }

  lemma NewJobShowsSame(s: State, id: JobId, task: Task, slug: string)
    requires s.holder.Some? ==> s.holder.value in s.jobs
    ensures SiteAt(Started(s, id, task), slug) == SiteAt(s, slug)
  {
    assert Displaced(Started(s, id, task)) == Displaced(s);
  }

  lemma StartKeepsInvariant(s: State, id: JobId, task: Task)
    requires Inv(s)
    ensures Inv(Started(s, id, task))
  {
    var after := Started(s, id, task);
    if after != s {
      assert s.holder != Some(id);
      assert Claims(after.jobs[id]) == {};
      forall other | other in s.jobs ensures Knows(after, s.jobs[other]) {
        KnowledgeIsLocal(s, after, s.jobs[other]);
      }
      NewJobKnows(after, after.jobs[id]);
      StartKeepsSites(s, id, task);
    }
  }

  lemma StartKeepsSites(s: State, id: JobId, task: Task)
    requires Inv(s)
    ensures SitesOk(Started(s, id, task))
  {
    forall slug | slug in s.rows ensures SiteOk(Started(s, id, task), slug) {
      assert SiteOk(s, slug);
      StartKeepsSite(s, id, task, slug);
    }
  }

  lemma NewJobKnows(s: State, job: Job)
    requires job == Job(job.task, if Stages(job.task) then Opening(0) else Waiting, NO_CONTENT)
    ensures Shape(job) && Knows(s, job)
  {}

  /** The slug a crash would damage, and how far its replacement has come. */
  predicate MidSwap(s: State, slug: string) {
    Displaced(s).Some? && Displaced(s).value.0 == slug
  }

  /**
   * A crash loses nothing except at the one slug whose replacement is between its renames: there the
   * new content meets the old row if it was already served, and otherwise the site has no content.
   */
  lemma CrashDamage(s: State, slug: string)
    requires Inv(s)
    ensures !MidSwap(s, slug) ==> SiteAt(Crashed(s), slug) == SiteAt(s, slug)
    ensures MidSwap(s, slug) ==> slug in s.rows && (slug in Torn(s) <==> SiteAt(Crashed(s), slug).Some?)
    ensures slug in Torn(s) ==>
      MidSwap(s, slug) && SiteAt(Crashed(s), slug) == Some((s.rows[slug], s.sites[slug])) && Whole(s.sites[slug])
  {
    CrashShowsSites(s, slug);
    if MidSwap(s, slug) {
      SwapDamage(s, s.jobs[s.holder.value]);
    }
  }

  lemma CrashShowsSites(s: State, slug: string)
    ensures SiteAt(Crashed(s), slug) == if slug in s.rows && slug in s.sites then Some((s.rows[slug], s.sites[slug])) else None
    ensures !MidSwap(s, slug) ==> SiteAt(Crashed(s), slug) == SiteAt(s, slug)
  {}

  /** Where the two directories are while a swap is in progress. */
  lemma SwapDamage(s: State, job: Job)
    requires Shape(job) && ValidTask(job.task) && Knows(s, job) && Swapping(job.pc)
    ensures var slug := job.task.slug;
      && slug in s.rows
      && (job.pc.Recording? || job.pc.Withdrawing? <==> slug in s.sites)
      && (slug in s.sites ==> Whole(s.sites[slug]))
  {
    if job.pc.Recording? || job.pc.Withdrawing? {
      assert SwappedIn(s, job);
      assert Staged(job.task.input.files, s.sites[job.task.slug]);
    }
  }

  lemma CrashKeepsInvariant(s: State)
    requires Inv(s)
    ensures Inv(Crashed(s))
  {
    var after := Crashed(s);
    forall slug | slug in after.rows ensures SiteOk(after, slug) {
      assert SiteOk(s, slug);
      CrashDamage(s, slug);
    }
    forall slug | slug in Torn(s) ensures slug in s.rows {
      CrashDamage(s, slug);
    }
  }

  /** Boot never changes what a slug with both a row and content holds. */
  lemma BootKeepsSites(s: State, decision: BootChoice, slug: string)
    requires Inv(s)
    ensures SiteAt(BootStep(s, decision), slug) == SiteAt(s, slug)
  {}

  lemma BootKeepsRows(s: State, decision: BootChoice)
    requires Inv(s) && !s.phase.Serving?
    ensures SitesOk(BootStep(s, decision))
  {
    var after := BootStep(s, decision);
    forall slug | slug in after.rows ensures SiteOk(after, slug) {
      assert SiteOk(s, slug);
      BootKeepsSites(s, decision, slug);
    }
  }

  lemma NobodyDisagrees(s: State)
    requires s.jobs == map[] && s.holder.None?
    ensures LockHeldByPc(s) && Disjoint(s) && JobsOk(s)
  {}

  lemma BootKeepsInvariant(s: State, decision: BootChoice)
    requires Inv(s)
    ensures Inv(BootStep(s, decision))
  {
    if !s.phase.Serving? {
      BootKeepsRows(s, decision);
      NobodyDisagrees(BootStep(s, decision));
    }
  }

  // ---------- Every run ----------

  lemma NextKeepsInvariant(s: State, event: Event)
    requires Inv(s) && FreshName(s, event)
    ensures Inv(Next(s, event))
  {
    match event
    case Start(id, task) => StartKeepsInvariant(s, id, task);
    case Act(id, choice) => if id in s.jobs { StepKeepsInvariant(s, id, choice); }
    case Crash => CrashKeepsInvariant(s);
    case Boot(decision) => BootKeepsInvariant(s, decision);
  }

  /** The state after a run of the service from an empty store. */
  ghost function Reached(events: seq<Event>): State {
    Run(Next, EMPTY_STORE, events)
  }

  /** The one assumption about a run: no staging name is created while a replacement awaits it. */
  ghost predicate FreshRun(events: seq<Event>) {
    Admissible(Next, EMPTY_STORE, events, FreshName)
  }

  lemma RunKeepsInvariant(events: seq<Event>)
    requires FreshRun(events)
    ensures Inv(Reached(events))
  {
    forall s, e | Inv(s) && FreshName(s, e) ensures Inv(Next(s, e)) { NextKeepsInvariant(s, e); }
    Invariance(Next, EMPTY_STORE, events, FreshName, Inv);
  }

  lemma FreshRunAppend(events: seq<Event>, event: Event)
    requires FreshRun(events) && FreshName(Reached(events), event)
    ensures FreshRun(events + [event])
  {
    var longer := events + [event];
    forall i | 0 <= i < |longer| ensures FreshName(Run(Next, EMPTY_STORE, longer[..i]), longer[i]) {
      if i < |events| {
        assert longer[..i] == events[..i];
      } else {
        assert longer[..i] == events;
      }
    }
  }

  /** What comes before the last event of a run is itself a run. */
  lemma LastEventIsFresh(events: seq<Event>)
    requires FreshRun(events) && events != []
    ensures var front, last := events[..|events| - 1], events[|events| - 1];
      FreshRun(front) && Inv(Reached(front)) && FreshName(Reached(front), last)
  {
    var front := events[..|events| - 1];
    AdmissibleParts(Next, EMPTY_STORE, events, FreshName, |front|);
    RunKeepsInvariant(front);
  }
}
