/** No job is ever stuck, and every job ends. */
module Progress {
  import opened Invariants
  import opened Machine
  import opened Protocol
  import opened Runs
  import opened Wrappers

  /** The attempts at a slug that are left, this one included. */
  function AttemptsLeft(attempt: nat): nat {
    if attempt < MAX_SLUG_ATTEMPTS then MAX_SLUG_ATTEMPTS - attempt else 0
  }

  /** A bound on the calls a job still makes, not counting repeated partial removals. */
  function Remaining(job: Job): nat {
    var files := if Stages(job.task) then |job.task.input.files| else 0;
    match job.pc
    case Opening(attempt) => files + 101 + (if attempt < MAX_STAGING_ATTEMPTS then MAX_STAGING_ATTEMPTS - attempt else 0)
    case Writing(next) => 100 + (if next < files then files - next else 0)
    case Discarding => 1
    case Waiting => 98
    case Finding => 97
    case Checking => 96
    case Dating => 94
    case Choosing(_, attempt) => 10 * AttemptsLeft(attempt) + 9
    case Inserting(_, attempt, _) => 10 * AttemptsLeft(attempt) + 8
    case Reserving(_, attempt, _) => 10 * AttemptsLeft(attempt) + 7
    case Declining(_, attempt) => 10 * AttemptsLeft(attempt) + 6
    case Installing(_, _) => 6
    case Committing(_, _) => 5
    case RollingBack => 4
    case Parking(_) => 12
    case Promoting(_) => 11
    case Recording(_) => 10
    case Withdrawing => 9
    case Restoring => 8
    case Unparking => 4
    case DroppingParked => 4
    case DeletingRow => 4
    case Saving(_) => 2
    case DeletingContent => 2
    case Packing => 2
    case Unreserving => 3
    case Unstaging => 2
    case Releasing => 1
  }

  /** Only a recursive removal that stopped part way is tried again by the same job. */
  ghost predicate Progresses(job: Job, choice: Choice, e: Effect) {
    e.job.Some? ==> Remaining(e.job.value) < Remaining(job) || (choice.Leave? && e.job.value == job)
  }

  /** Every call that gets through brings its job nearer to its end, whatever its outcome. */
  lemma EveryCallMakesProgress(s: State, job: Job, choice: Choice)
    requires EffectOf(s, job, choice).Some?
    ensures Progresses(job, choice, EffectOf(s, job, choice).value)
  {
    if !Locked(job.pc) { StagingProgresses(s, job, choice); }
    else if EarlyPc(job.pc) { EarlyProgresses(s, job, choice); }
    else if Swapping(job.pc) { SwapProgresses(s, job, choice); }
    else if InstallPc(job.pc) || CleanupPc(job.pc) { CleanupProgresses(s, job, choice); }
    else { LateProgresses(s, job, choice); }
  }

  lemma StagingProgresses(s: State, job: Job, choice: Choice)
    requires !Locked(job.pc) && EffectOf(s, job, choice).Some?
    ensures Progresses(job, choice, EffectOf(s, job, choice).value)
  {}

  lemma EarlyProgresses(s: State, job: Job, choice: Choice)
    requires EarlyPc(job.pc) && EffectOf(s, job, choice).Some?
    ensures Progresses(job, choice, EffectOf(s, job, choice).value)
  {}

  lemma SwapProgresses(s: State, job: Job, choice: Choice)
    requires Swapping(job.pc) && EffectOf(s, job, choice).Some?
    ensures Progresses(job, choice, EffectOf(s, job, choice).value)
  {}

  lemma CleanupProgresses(s: State, job: Job, choice: Choice)
    requires (InstallPc(job.pc) || CleanupPc(job.pc)) && EffectOf(s, job, choice).Some?
    ensures Progresses(job, choice, EffectOf(s, job, choice).value)
  {}

  lemma LateProgresses(s: State, job: Job, choice: Choice)
    requires Locked(job.pc) && !EarlyPc(job.pc) && !Swapping(job.pc) && !InstallPc(job.pc) && !CleanupPc(job.pc)
    requires EffectOf(s, job, choice).Some?
    ensures Progresses(job, choice, EffectOf(s, job, choice).value)
  {}

  /** A decision under which the next call of a job always goes through. */
  function Settling(job: Job): Choice {
    match job.pc
    case Committing(_, _) => Unsure(false)
    case Saving(_) => Unsure(false)
    case Waiting => Proceed
    case Unparking => Proceed
    case Withdrawing => Proceed
    case Restoring => Proceed
    case Releasing => Proceed
    case Unstaging => if job.content.stagingRemoved then Proceed else Fail
    case _ => Fail
  }

  /**
   * In every reachable state each job can make its next call, unless it waits for a lock that another job
   * holds.
   */
  lemma NobodyIsStuck(s: State, id: JobId)
    requires Inv(s) && id in s.jobs && (s.jobs[id].pc.Waiting? ==> s.holder.None?)
    ensures EffectOf(s, s.jobs[id], Settling(s.jobs[id])).Some?
  {
    var job := s.jobs[id];
    assert Shape(job) && ValidTask(job.task) && Knows(s, job);
    if Swapping(job.pc) { SwapIsNotStuck(s, job); }
  }

  /** The restoring renames always have their source, and a target that is free. */
  lemma SwapIsNotStuck(s: State, job: Job)
    requires Shape(job) && Knows(s, job) && Swapping(job.pc)
    ensures EffectOf(s, job, Settling(job)).Some?
  {}

  // ---------- Runs ----------

  /** The event is a call of the job that gets through and is not a repeated partial removal. */
  predicate Counts(s: State, event: Event, id: JobId) {
    && event.Act? && event.id == id && id in s.jobs
    && EffectOf(s, s.jobs[id], event.choice).Some? && !event.choice.Leave?
  }

  /** How many such calls a run contains. */
  ghost function CallsMade(s: State, events: seq<Event>, id: JobId): nat {
    if events == [] then 0
    else
      var front, last := events[..|events| - 1], events[|events| - 1];
      CallsMade(s, front, id) + if Counts(Run(Next, s, front), last, id) then 1 else 0
  }

  /** The job lives throughout the run. */
  ghost predicate LivesThrough(s: State, events: seq<Event>, id: JobId) {
    forall n | 0 <= n <= |events| :: id in Run(Next, s, events[..n]).jobs
  }

  lemma EventUsesUpCalls(s: State, event: Event, id: JobId)
    requires id in s.jobs && id in Next(s, event).jobs
    ensures Remaining(Next(s, event).jobs[id]) + (if Counts(s, event, id) then 1 else 0) <= Remaining(s.jobs[id])
  {
    if event.Act? && event.id == id && EffectOf(s, s.jobs[id], event.choice).Some? {
      EveryCallMakesProgress(s, s.jobs[id], event.choice);
    }
  }

  /** As long as a job lives, whatever else happens, each of its calls uses up one of those it had left. */
  lemma {:induction false} CallsAreUsedUp(s: State, events: seq<Event>, id: JobId)
    requires LivesThrough(s, events, id)
    ensures id in s.jobs && id in Run(Next, s, events).jobs
    ensures CallsMade(s, events, id) + Remaining(Run(Next, s, events).jobs[id]) <= Remaining(s.jobs[id])
  {
    assert events[..0] == [] && events[..|events|] == events;
    assert id in Run(Next, s, events[..0]).jobs && id in Run(Next, s, events[..|events|]).jobs;
    if events != [] {
      var front, last := events[..|events| - 1], events[|events| - 1];
      forall n | 0 <= n <= |front| ensures id in Run(Next, s, front[..n]).jobs {
        assert front[..n] == events[..n];
      }
      CallsAreUsedUp(s, front, id);
      EventUsesUpCalls(Run(Next, s, front), last, id);
    }
  }

  /**
   * In any run, under any interference and with any outcomes, a job is over at the latest when it has made
   * as many calls as it had left.
   */
  lemma JobsEnd(s: State, events: seq<Event>, id: JobId)
    requires id in s.jobs && CallsMade(s, events, id) >= Remaining(s.jobs[id])
    ensures exists n | 0 <= n <= |events| :: id !in Run(Next, s, events[..n]).jobs
  {
    if LivesThrough(s, events, id) {
      CallsAreUsedUp(s, events, id);
      SomethingRemains(Run(Next, s, events).jobs[id]);
      assert false;
    }
  }

  /** So the lock is given back in every run in which its holder gets to make that many calls. */
  lemma LocksAreGivenBack(before: seq<Event>, events: seq<Event>, id: JobId)
    requires FreshRun(before + events) && Reached(before).holder == Some(id) && id in Reached(before).jobs
    requires CallsMade(Reached(before), events, id) >= Remaining(Reached(before).jobs[id])
    ensures exists n | 0 <= n <= |events| :: Reached(before + events[..n]).holder != Some(id)
  {
    var s := Reached(before);
    JobsEnd(s, events, id);
    var n :| 0 <= n <= |events| && id !in Run(Next, s, events[..n]).jobs;
    PartOfRun(before, events, n);
    DeadJobsHoldNoLock(before + events[..n], id);
  }

  lemma PartOfRun(before: seq<Event>, events: seq<Event>, n: nat)
    requires FreshRun(before + events) && n <= |events|
    ensures FreshRun(before + events[..n]) && Reached(before + events[..n]) == Run(Next, Reached(before), events[..n])
  {
    RunConcat(Next, EMPTY_STORE, before, events[..n]);
    FrontOfRun(before + events, before + events[..n]);
  }

  lemma FrontOfRun(events: seq<Event>, front: seq<Event>)
    requires FreshRun(events) && front <= events
    ensures FreshRun(front)
  {
    AdmissibleParts(Next, EMPTY_STORE, events, FreshName, |front|);
    assert events[..|front|] == front;
  }

  lemma DeadJobsHoldNoLock(events: seq<Event>, id: JobId)
    requires FreshRun(events) && id !in Reached(events).jobs
    ensures Reached(events).holder != Some(id)
  {
    RunKeepsInvariant(events);
  }

  lemma SomethingRemains(job: Job)
    ensures Remaining(job) > 0
  {}

  /** The calls of one job, one after the other. */
  function Calls(id: JobId, choices: seq<Choice>): seq<Event> {
    seq(|choices|, i requires 0 <= i < |choices| => Act(id, choices[i]))
  }

  /** The other jobs are where they were. */
  predicate Spares(s: State, after: State, id: JobId) {
    after.phase == s.phase && forall other | other in s.jobs && other != id :: other in after.jobs && after.jobs[other] == s.jobs[other]
  }

  /** From every reachable state the holder of the lock can give it back, by calls of its own alone. */
  lemma {:induction false} LockCanBeReleased(s: State, id: JobId) returns (choices: seq<Choice>)
    requires Inv(s) && s.holder == Some(id)
    ensures |choices| <= Remaining(s.jobs[id])
    ensures Run(Next, s, Calls(id, choices)).holder.None? && Spares(s, Run(Next, s, Calls(id, choices)), id)
    decreases Remaining(s.jobs[id])
  {
    var choice := Settling(s.jobs[id]);
    HolderMovesOn(s, id);
    NextKeepsInvariant(s, Act(id, choice));
    var rest: seq<Choice> := [];
    if Step(s, id, choice).holder.Some? { rest := LockCanBeReleased(Step(s, id, choice), id); }
    FirstCall(s, id, choice, rest);
    CallSpares(s, id, choice);
    SomethingRemains(s.jobs[id]);
    choices := [choice] + rest;
  }

  lemma CallSpares(s: State, id: JobId, choice: Choice)
    ensures Spares(s, Step(s, id, choice), id)
  {}

  /** A job that waits has the lock after a bounded number of calls of the holder alone and one of its own. */
  lemma WaitersGetTheLock(s: State, id: JobId) returns (choices: seq<Choice>)
    requires Inv(s) && s.holder.Some? && id in s.jobs && s.jobs[id].pc.Waiting?
    ensures s.holder.value in s.jobs && |choices| <= Remaining(s.jobs[s.holder.value])
    ensures Run(Next, s, Calls(s.holder.value, choices) + [Act(id, Proceed)]).holder == Some(id)
  {
    choices := LockCanBeReleased(s, s.holder.value);
    var freed := Run(Next, s, Calls(s.holder.value, choices));
    assert Shape(s.jobs[id]);
    FreeLockIsTaken(freed, id);
    RunAppend(Next, s, Calls(s.holder.value, choices), Act(id, Proceed));
  }

  lemma FreeLockIsTaken(s: State, id: JobId)
    requires s.holder.None? && id in s.jobs && s.jobs[id].pc.Waiting? && Shape(s.jobs[id])
    ensures Step(s, id, Proceed).holder == Some(id)
  {}

  lemma FirstCall(s: State, id: JobId, choice: Choice, rest: seq<Choice>)
    ensures Run(Next, s, Calls(id, [choice] + rest)) == Run(Next, Step(s, id, choice), Calls(id, rest))
  {
    assert Calls(id, [choice]) == [] + [Act(id, choice)];
    RunAppend(Next, s, [], Act(id, choice));
    assert Calls(id, [choice] + rest) == Calls(id, [choice]) + Calls(id, rest);
    RunConcat(Next, s, Calls(id, [choice]), Calls(id, rest));
  }

  /** A settling call leads the holder nearer to the release, or is the release. */
  lemma HolderMovesOn(s: State, id: JobId)
    requires Inv(s) && s.holder == Some(id)
    ensures FreshName(s, Act(id, Settling(s.jobs[id])))
    ensures var after := Step(s, id, Settling(s.jobs[id]));
      after.holder.Some? ==>
        after.holder == Some(id) && id in after.jobs && Remaining(after.jobs[id]) < Remaining(s.jobs[id])
  {
    assert Shape(s.jobs[id]);
    NobodyIsStuck(s, id);
    SettlingMovesOn(s, id);
  }

  lemma SettlingMovesOn(s: State, id: JobId)
    requires id in s.jobs && s.holder == Some(id) && Shape(s.jobs[id]) && Locked(s.jobs[id].pc)
    requires EffectOf(s, s.jobs[id], Settling(s.jobs[id])).Some?
    ensures var after := Step(s, id, Settling(s.jobs[id]));
      after.holder.Some? ==>
        after.holder == Some(id) && id in after.jobs && Remaining(after.jobs[id]) < Remaining(s.jobs[id])
  {
    EveryCallMakesProgress(s, s.jobs[id], Settling(s.jobs[id]));
    EffectIsWithinOwn(s, s.jobs[id], Settling(s.jobs[id]));
  }
}
