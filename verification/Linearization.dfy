/** Rows and directories together behave like one atomic store, over every run. */
module Linearization {
  import opened Invariants
  import opened Machine
  import opened Protocol
  import opened Runs
  import opened Trees
  import opened Wrappers

  /** A store that holds a row and its content under one key, and changes both at once. */
  type AtomicStore = map<string, (Row, Tree)>

  function Applied(store: AtomicStore, operation: Operation): AtomicStore {
    match operation
    case Nothing => store
    case SetSite(slug, row, tree) => store[slug := (row, tree)]
    case DropSite(slug) => store - {slug}
  }

  function Lookup(store: AtomicStore, slug: string): Option<(Row, Tree)> {
    if slug in store then Some(store[slug]) else None
  }

  /**
   * The atomic operation an event amounts to. A crash amounts to none, unless a replacement is between
   * its renames: then it drops that site, or leaves it with the new content under the old row.
   */
  function EventOperation(s: State, event: Event): Operation {
    match event
    case Start(_, _) => Nothing
    case Act(id, choice) =>
      if id in s.jobs && EffectOf(s, s.jobs[id], choice).Some? then OperationOf(s, s.jobs[id], choice) else Nothing
    case Crash =>
      if Displaced(s).None? then Nothing
      else
        var slug := Displaced(s).value.0;
        if slug in Torn(s) && slug in s.rows && slug in s.sites then SetSite(slug, s.rows[slug], s.sites[slug]) else DropSite(slug)
    case Boot(_) => Nothing
  }

  lemma EventRefinesAtomicStore(s: State, event: Event, slug: string)
    requires Inv(s) && FreshName(s, event)
    ensures SiteAt(Next(s, event), slug) == Performed(EventOperation(s, event), slug, SiteAt(s, slug))
  {
    match event
    case Start(id, task) => StartKeepsSite(s, id, task, slug);
    case Act(id, choice) => if id in s.jobs { StepRefinesAtomicStore(s, id, choice, slug); }
    case Crash => CrashRefinesAtomicStore(s, slug);
    case Boot(decision) => BootKeepsSites(s, decision, slug);
  }

  lemma CrashRefinesAtomicStore(s: State, slug: string)
    requires Inv(s)
    ensures SiteAt(Crashed(s), slug) == Performed(EventOperation(s, Crash), slug, SiteAt(s, slug))
  {
    CrashShowsSites(s, slug);
    CrashDamage(s, slug);
    if MidSwap(s, slug) { DamageIsOperation(s, slug); } else { OtherSlugsAreUntouched(s, slug); }
  }

  lemma OtherSlugsAreUntouched(s: State, slug: string)
    requires !MidSwap(s, slug)
    ensures Performed(EventOperation(s, Crash), slug, SiteAt(s, slug)) == SiteAt(s, slug)
  {}

  lemma DamageIsOperation(s: State, slug: string)
    requires MidSwap(s, slug) && slug in s.rows && (slug in Torn(s) ==> slug in s.sites)
    ensures Performed(EventOperation(s, Crash), slug, SiteAt(s, slug))
         == if slug in Torn(s) then Some((s.rows[slug], s.sites[slug])) else None
  {}

  /** The atomic store after the operations of a run, in the order of their events. */
  ghost function AtomicAfter(events: seq<Event>): AtomicStore {
    if events == [] then map[]
    else
      var front, last := events[..|events| - 1], events[|events| - 1];
      Applied(AtomicAfter(front), EventOperation(Reached(front), last))
  }

  /** Whatever the interleaving, faults, crashes and boots, each slug holds what the atomic store holds. */
  lemma {:induction false} RunsAreLinearizable(events: seq<Event>, slug: string)
    requires FreshRun(events)
    ensures SiteAt(Reached(events), slug) == Lookup(AtomicAfter(events), slug)
  {
    if events != [] {
      var front, last := events[..|events| - 1], events[|events| - 1];
      LastEventIsFresh(events);
      RunsAreLinearizable(front, slug);
      StaysLinearized(Reached(front), last, AtomicAfter(front), slug);
    }
  }

  lemma StaysLinearized(s: State, event: Event, store: AtomicStore, slug: string)
    requires Inv(s) && FreshName(s, event) && SiteAt(s, slug) == Lookup(store, slug)
    ensures SiteAt(Next(s, event), slug) == Lookup(Applied(store, EventOperation(s, event)), slug)
  {
    EventRefinesAtomicStore(s, event, slug);
    AppliedPerforms(store, EventOperation(s, event), slug);
  }

  lemma AppliedPerforms(store: AtomicStore, operation: Operation, slug: string)
    ensures Lookup(Applied(store, operation), slug) == Performed(operation, slug, Lookup(store, slug))
  {}

  // ---------- One operation per job ----------

  /** The job may still perform the operation it was asked for. */
  predicate CanOperate(job: Job) {
    match job.pc
    case Opening(_) | Writing(_) | Waiting | Finding | Dating | Checking | Saving(_) | DeletingRow => true
    case Choosing(_, _) | Inserting(_, _, _) | Reserving(_, _, _) | Declining(_, _)
       | Installing(_, _) | Committing(_, _) => true
    case Parking(_) | Promoting(_) | Recording(_) => true
    case _ => false
  }

  /** A call performs an operation only if the job still may, under the lock, and then it no longer may. */
  lemma CallsOperateOnce(s: State, job: Job, choice: Choice)
    requires EffectOf(s, job, choice).Some?
    ensures var operation, e := OperationOf(s, job, choice), EffectOf(s, job, choice).value;
      && (!operation.Nothing? ==> CanOperate(job) && Locked(job.pc))
      && (e.job.Some? && CanOperate(e.job.value) ==> CanOperate(job) && operation.Nothing?)
  {
    if job.pc.Committing? || job.pc.Recording? || job.pc.Saving? || job.pc.DeletingRow? {
      OperatingStep(s, job, choice);
    } else if CanOperate(job) {
    } else {
      SpentStep(s, job, choice);
    }
  }

  lemma OperatingStep(s: State, job: Job, choice: Choice)
    requires EffectOf(s, job, choice).Some?
    requires job.pc.Committing? || job.pc.Recording? || job.pc.Saving? || job.pc.DeletingRow?
    ensures Locked(job.pc)
    ensures EffectOf(s, job, choice).value.job.Some? ==> !CanOperate(EffectOf(s, job, choice).value.job.value)
  {}

  lemma SpentStep(s: State, job: Job, choice: Choice)
    requires EffectOf(s, job, choice).Some? && !CanOperate(job)
    ensures OperationOf(s, job, choice).Nothing?
    ensures EffectOf(s, job, choice).value.job.Some? ==> !CanOperate(EffectOf(s, job, choice).value.job.value)
  {}

  /** The operation that the last of some events is, if it is a call of the job. */
  ghost function OwnOperation(s: State, event: Event, id: JobId): seq<Operation> {
    if event.Act? && event.id == id && !EventOperation(s, event).Nothing? then [EventOperation(s, event)] else []
  }

  /** The operations of a job among the events after `before`. */
  ghost function OperationsBy(before: seq<Event>, events: seq<Event>, id: JobId): seq<Operation> {
    if events == [] then []
    else
      var front, last := events[..|events| - 1], events[|events| - 1];
      OperationsBy(before, front, id) + OwnOperation(Reached(before + front), last, id)
  }

  /** Over any run a job performs at most one operation, whatever happens, unless it is started a second time. */
  lemma {:induction false} JobsOperateOnce(before: seq<Event>, events: seq<Event>, id: JobId)
    requires forall event <- events :: !(event.Start? && event.id == id)
    ensures |OperationsBy(before, events, id)| <= 1
    ensures var s := Reached(before + events);
      OperationsBy(before, events, id) != [] && id in s.jobs ==> !CanOperate(s.jobs[id])
  {
    if events != [] {
      var front, last := events[..|events| - 1], events[|events| - 1];
      assert forall event <- front :: event in events;
      assert last in events;
      JobsOperateOnce(before, front, id);
      assert before + events == (before + front) + [last];
      RunAppend(Next, EMPTY_STORE, before + front, last);
      EventsOperateOnce(Reached(before + front), last, id);
    }
  }

  lemma EventsOperateOnce(s: State, event: Event, id: JobId)
    requires !(event.Start? && event.id == id)
    ensures OwnOperation(s, event, id) != [] ==> id in s.jobs && CanOperate(s.jobs[id])
    ensures id in Next(s, event).jobs && CanOperate(Next(s, event).jobs[id]) ==>
      id in s.jobs && CanOperate(s.jobs[id]) && OwnOperation(s, event, id) == []
  {
    if event.Act? && event.id in s.jobs {
      ActsOperateOnce(s, event.id, event.choice, id);
    } else {
      OthersLeaveJobs(s, event, id);
    }
  }

  lemma OthersLeaveJobs(s: State, event: Event, id: JobId)
    requires !(event.Start? && event.id == id) && (event.Act? ==> event.id !in s.jobs)
    ensures id in Next(s, event).jobs ==> id in s.jobs && Next(s, event).jobs[id] == s.jobs[id]
  {}

  lemma ActsOperateOnce(s: State, actor: JobId, choice: Choice, id: JobId)
    requires actor in s.jobs
    ensures OwnOperation(s, Act(actor, choice), id) != [] ==> id in s.jobs && CanOperate(s.jobs[id])
    ensures id in Step(s, actor, choice).jobs && CanOperate(Step(s, actor, choice).jobs[id]) ==>
      id in s.jobs && CanOperate(s.jobs[id]) && OwnOperation(s, Act(actor, choice), id) == []
  {
    if EffectOf(s, s.jobs[actor], choice).Some? {
      CallsOperateOnce(s, s.jobs[actor], choice);
      EffectLeavesOthers(s, actor, EffectOf(s, s.jobs[actor], choice).value, id);
    }
  }

  lemma EffectLeavesOthers(s: State, actor: JobId, e: Effect, id: JobId)
    ensures id in Apply(s, actor, e).jobs ==>
      if id == actor then e.job == Some(Apply(s, actor, e).jobs[id])
      else id in s.jobs && Apply(s, actor, e).jobs[id] == s.jobs[id]
  {}

  // ---------- Operations and requests ----------

  /** The time that the job has read. */
  function TimeOf(pc: Pc): int {
    match pc
    case Committing(now, _) => now
    case Recording(now) => now
    case Saving(now) => now
    case _ => 0
  }

  /**
   * The operation is what the request asks of a store that holds the given site, at the given time: a new
   * row and the staged input where there was none; the columns of a replacement and the staged input; a
   * saved row and the same content; or no site.
   */
  ghost predicate Answers(task: Task, now: int, operation: Operation, site: Option<(Row, Tree)>) {
    match task
    case Publish(input) =>
      operation.SetSite? && Asks(task, operation.slug) && site.None?
      && operation.row == NewRow(input, now) && WriteAll(input.files) == Some(operation.tree)
    case Replace(slug, input) =>
      operation.SetSite? && operation.slug == slug && site.Some?
      && operation.row == ReplacedRow(site.value.0, input, now) && WriteAll(input.files) == Some(operation.tree)
    case Update(slug, settings) =>
      operation.SetSite? && operation.slug == slug && site.Some?
      && operation.row == UpdatedRow(site.value.0, settings, now) && operation.tree == site.value.1
    case Delete(slug) => operation == DropSite(slug)
    case Archive(_) => false
  }

  lemma OperationsAnswer(s: State, id: JobId, choice: Choice)
    requires Inv(s) && s.phase.Serving? && id in s.jobs && EffectOf(s, s.jobs[id], choice).Some?
    ensures var job, operation := s.jobs[id], OperationOf(s, s.jobs[id], choice);
      !operation.Nothing? ==>
        s.holder == Some(id) && Answers(job.task, TimeOf(job.pc), operation, SiteAt(s, operation.slug))
  {
    var job := s.jobs[id];
    assert Shape(job) && ValidTask(job.task) && Knows(s, job);
    CallsOperateOnce(s, job, choice);
    if job.pc.Recording? {
      assert SiteOk(s, job.task.slug);
      RecordsAnswer(s, job, choice);
    } else if !OperationOf(s, job, choice).Nothing? {
      OtherOperationsAnswer(s, job, choice);
    }
  }

  lemma RecordsAnswer(s: State, job: Job, choice: Choice)
    requires Shape(job) && Knows(s, job) && job.pc.Recording? && SiteAt(s, job.task.slug).Some?
    ensures var operation := OperationOf(s, job, choice);
      !operation.Nothing? ==> Answers(job.task, TimeOf(job.pc), operation, SiteAt(s, operation.slug))
  {}

  lemma OtherOperationsAnswer(s: State, job: Job, choice: Choice)
    requires Shape(job) && Knows(s, job) && !job.pc.Recording? && !OperationOf(s, job, choice).Nothing?
    requires Displaced(s).None?
    ensures var operation := OperationOf(s, job, choice);
      Answers(job.task, TimeOf(job.pc), operation, SiteAt(s, operation.slug))
  {}

  /**
   * Every operation of a run that is a call of a job happens under the lock and answers the job's request
   * against the atomic store after the operations before it.
   */
  lemma RunsAnswerRequests(events: seq<Event>, event: Event)
    requires FreshRun(events) && event.Act? && event.id in Reached(events).jobs
    ensures var s, operation := Reached(events), EventOperation(Reached(events), event);
      !operation.Nothing? ==>
        && s.holder == Some(event.id)
        && Answers(s.jobs[event.id].task, TimeOf(s.jobs[event.id].pc), operation, Lookup(AtomicAfter(events), operation.slug))
  {
    var s, operation := Reached(events), EventOperation(Reached(events), event);
    RunKeepsInvariant(events);
    if !operation.Nothing? {
      RunsAreLinearizable(events, operation.slug);
      OperationsAnswer(s, event.id, event.choice);
    }
  }
}
