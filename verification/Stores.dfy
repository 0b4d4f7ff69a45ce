/** The database and the data directory as one mutable store that a job works on while others interfere. */
module Stores {
  import opened Histories
  import opened Invariants
  import opened Machine
  import opened Names
  import opened NewSites
  import opened Protocol
  import opened Runs
  import opened Safety
  import opened SiteSettings
  import opened Steps
  import opened Trees
  import opened Wrappers

  /** Whenever the lock is free, every site is whole and described by its row. */
  lemma ReachableIsSound(s: State)
    requires Reachable(s) && s.phase.Serving? && s.holder.None?
    ensures Sound(s)
  {
    ReachableIsInvariant(s);
    FreeLockIsSound(s);
  }

  /** What a job knows of the store, wherever it is. */
  lemma Known(s: State, id: JobId)
    requires Reachable(s) && id in s.jobs
    ensures Shape(s.jobs[id]) && ValidTask(s.jobs[id].task) && Knows(s, s.jobs[id])
    ensures s.holder == Some(id) <==> Locked(s.jobs[id].pc)
  {
    ReachableIsInvariant(s);
  }

  lemma StandsSomewhere(s: State, id: JobId)
    requires Reachable(s) && id in s.jobs
    ensures StandsAt(s, id, s.jobs[id].pc)
  {
    Known(s, id);
  }

  /** A row whose content is not parked has a whole directory. */
  lemma RowHasContent(s: State, slug: string)
    requires Reachable(s) && s.phase.Serving? && slug in s.rows && Displaced(s).None?
    ensures slug in s.sites && Whole(s.sites[slug])
  {
    ReachableIsInvariant(s);
    assert SiteOk(s, slug);
  }

  // ---------- Histories of a store ----------

  lemma ToldOwn(h: History, pending: seq<Event>, faults: nat, draws: seq<Draw>, s: State, choice: Choice, after: State)
    requires Told(h, pending, faults, draws, s) && Takes(s, h.me, choice, after)
    requires h.locked.None? ==> after.holder != Some(h.me)
    ensures Told(h.(trace := h.trace + [Act(h.me, choice)]), pending, faults + (if FaultChoice(choice) then 1 else 0),
                 draws + (if choice.Pick? then [Draw(s, choice.name)] else []), after)
    ensures Reachable(after)
  {
    var event := Act(h.me, choice);
    assert FaultOf(event, h.me) == if FaultChoice(choice) then 1 else 0;
    assert DrawOf(s, event, h.me) == if choice.Pick? then [Draw(s, choice.name)] else [];
    ToldNext(h, pending, faults, draws, s, event, after);
  }

  lemma ToldNext(h: History, pending: seq<Event>, faults: nat, draws: seq<Draw>, s: State, event: Event, after: State)
    requires Told(h, pending, faults, draws, s) && Occurs(s, event, after) && Belongs(event, h.me, AfterCrash(h))
    requires Other(event, h.me) ==> pending != [] && pending[0] == event
    requires h.locked.None? ==> after.holder != Some(h.me)
    ensures Told(h.(trace := h.trace + [event]), if Other(event, h.me) then pending[1..] else pending,
                 faults + FaultOf(event, h.me), draws + DrawOf(s, event, h.me), after)
    ensures Reachable(after)
  {
    Recall(h, pending, faults, draws, s);
    Recorded(h, pending, faults, draws, s, event, after);
    IsTold(h.(trace := h.trace + [event]), if Other(event, h.me) then pending[1..] else pending,
           faults + FaultOf(event, h.me), draws + DrawOf(s, event, h.me), after);
  }

  lemma ToldOther(h: History, pending: seq<Event>, faults: nat, draws: seq<Draw>, s: State, after: State)
    requires Told(h, pending, faults, draws, s) && pending != [] && Other(pending[0], h.me)
    requires Occurs(s, pending[0], after) && (h.locked.None? ==> after.holder != Some(h.me))
    ensures Told(h.(trace := h.trace + [pending[0]]), pending[1..], faults, draws, after)
    ensures Reachable(after)
  {
    assert draws + [] == draws;
    ToldNext(h, pending, faults, draws, s, pending[0], after);
  }

  lemma ToldBoot(h: History, pending: seq<Event>, faults: nat, draws: seq<Draw>, s: State, decision: BootChoice, after: State)
    requires Told(h, pending, faults, draws, s) && Occurs(s, Boot(decision), after) && after.holder.None? && AfterCrash(h)
    ensures Told(h.(trace := h.trace + [Boot(decision)]), pending, faults + (if BootFault(decision) then 1 else 0), draws, after)
    ensures Reachable(after)
  {
    assert draws + [] == draws;
    ToldNext(h, pending, faults, draws, s, Boot(decision), after);
  }

  lemma ToldLock(h: History, pending: seq<Event>, faults: nat, draws: seq<Draw>, s: State, after: State)
    requires Told(h, pending, faults, draws, s) && Takes(s, h.me, Proceed, after)
    requires h.locked.None? && h.closing.None? && h.closed.None? && after.holder == Some(h.me)
    ensures var t := h.trace + [Act(h.me, Proceed)];
      && Told(h.(trace := t, locked := Some(t)), pending, faults, draws, after)
      && Reachable(after) && Reached(t) == after
  {
    var t := h.trace + [Act(h.me, Proceed)];
    Recall(h, pending, faults, draws, s);
    LockIsMarked(h, pending, faults, draws, s, Act(h.me, Proceed), after);
    IsTold(h.(trace := t, locked := Some(t)), pending, faults, draws, after);
  }

  lemma ToldClock(h: History, pending: seq<Event>, faults: nat, draws: seq<Draw>, s: State, now: int, after: State)
    requires Told(h, pending, faults, draws, s) && Takes(s, h.me, At(now), after)
    requires h.locked.None? ==> after.holder != Some(h.me)
    ensures Told(h.(trace := h.trace + [Act(h.me, At(now))], clock := Some(now)), pending, faults, draws, after)
    ensures Reachable(after)
  {
    var longer := h.(trace := h.trace + [Act(h.me, At(now))]);
    ToldOwn(h, pending, faults, draws, s, At(now), after);
    assert draws + [] == draws;
    Recall(h, pending, faults, draws, s);
    Recall(longer, pending, faults, draws, after);
    ClockIsMarked(longer, pending, faults, draws, after, now);
    IsTold(longer.(clock := Some(now)), pending, faults, draws, after);
  }

  /** Another job starts, or makes a call that does not create a staging name which a replacement awaits. */
  predicate OthersMay(s: State, event: Event, id: JobId) {
    Other(event, id) && FreshName(s, event)
  }

  lemma OthersDisturbNothing(s: State, event: Event, id: JobId, after: State)
    requires Reachable(s) && id in s.jobs && OthersMay(s, event, id) && Occurs(s, event, after)
    ensures Undisturbed(s, after, id)
  {
    assert Asked(0);
    ReachableIsInvariant(s);
    if event.Start? {
      StartsDisturbNothing(s, event.id, event.task, id);
    } else if event.id in s.jobs {
      OtherStepsDisturbNothing(s, event.id, event.choice, id);
    }
  }

  /** What a job can rely on while other jobs run. */
  ghost predicate Undisturbed(before: State, after: State, id: JobId) {
    && id in before.jobs && id in after.jobs && after.jobs[id] == before.jobs[id]
    && after.phase == before.phase
    && (forall name <- Claims(before.jobs[id]) :: SameAt(after.tmp, before.tmp, name))
    && (before.holder == Some(id) <==> after.holder == Some(id))
    && (before.holder == Some(id) ==> after.rows == before.rows && after.sites == before.sites)
    && (before.holder == Some(id) && Stages(before.jobs[id].task) ==> ParkedStays(before.tmp, after.tmp, before.jobs[id].content))
  }

  /** What stands at the parked name is the same, if anything does. */
  ghost predicate ParkedStays(before: map<string, Tree>, after: map<string, Tree>, content: Ownership) {
    SameAt(after, before, ParkedName(content))
  }

  /** Only the holder of the lock ever touches a parked name, its own or another. */
  lemma LockKeepsParkedNames(s: State, other: JobId, choice: Choice, id: JobId)
    requires Inv(s) && s.holder == Some(id) && id in s.jobs && Stages(s.jobs[id].task) && other in s.jobs && other != id
    ensures ParkedStays(s.tmp, Step(s, other, choice).tmp, s.jobs[id].content)
  {
    var job, after := s.jobs[other], Step(s, other, choice);
    assert Shape(s.jobs[id]) && Locked(s.jobs[id].pc) && Shape(job) && !Locked(job.pc);
    StepIsIsolated(s, other, choice);
    UnlockedClaimsAreSlugs(job, s.jobs[id].content.staging);
    if EffectOf(s, job, choice).Some? && EffectOf(s, job, choice).value.job.Some? {
      EffectIsWithinOwn(s, job, choice);
      assert !EffectOf(s, job, choice).value.lock.Acquire?;
      UnlockedClaimsAreSlugs(EffectOf(s, job, choice).value.job.value, s.jobs[id].content.staging);
    }
  }

  lemma UnlockedClaimsAreSlugs(job: Job, staging: string)
    requires Shape(job) && !Locked(job.pc) && ValidSlug(staging)
    ensures WithExtensionOld(staging) !in Claims(job)
  {
    if ClaimsStaging(job) { ParkedNamesAreApart(staging, job.content.staging); }
  }

  lemma OtherStepsDisturbNothing(s: State, other: JobId, choice: Choice, id: JobId)
    requires Inv(s) && FreshName(s, Act(other, choice)) && id in s.jobs && other in s.jobs && other != id
    ensures Undisturbed(s, Step(s, other, choice), id)
  {
    var after := Step(s, other, choice);
    assert Shape(s.jobs[other]);
    StepIsIsolated(s, other, choice);
    forall name <- Claims(s.jobs[id]) ensures SameAt(after.tmp, s.tmp, name) {
      if EffectOf(s, s.jobs[other], choice).Some? && EffectOf(s, s.jobs[other], choice).value.job.Some? {
        ClaimsStayDisjoint(s, other, choice, id);
      }
      assert Claims(s.jobs[other]) !! Claims(s.jobs[id]);
    }
    if s.holder == Some(id) && Stages(s.jobs[id].task) { LockKeepsParkedNames(s, other, choice, id); }
  }

  lemma StartsDisturbNothing(s: State, other: JobId, task: Task, id: JobId)
    requires id in s.jobs
    ensures Undisturbed(s, Started(s, other, task), id)
  {}

  lemma UndisturbedTwice(a: State, b: State, c: State, id: JobId)
    requires Undisturbed(a, b, id) && Undisturbed(b, c, id)
    ensures Undisturbed(a, c, id)
  {
    forall name <- Claims(a.jobs[id]) ensures SameAt(c.tmp, a.tmp, name) {
      assert SameAt(b.tmp, a.tmp, name) && SameAt(c.tmp, b.tmp, name);
    }
  }

  /** Without the lock, a call changes no row and no site, and nothing that any other job relies on. */
  ghost predicate Harmless(s: State, after: State, id: JobId) {
    && after.rows == s.rows && after.sites == s.sites && after.holder == s.holder
    && forall other | other in s.jobs && other != id :: Undisturbed(s, after, other)
  }

  lemma UnlockedStepIsHarmless(s: State, id: JobId, choice: Choice, after: State)
    requires Inv(s) && FreshName(s, Act(id, choice)) && after == Step(s, id, choice)
    requires s.holder != Some(id) && after.holder != Some(id)
    ensures Harmless(s, after, id)
  {
    if id in s.jobs {
      assert Shape(s.jobs[id]);
      StepIsIsolated(s, id, choice);
      forall other | other in s.jobs && other != id ensures Undisturbed(s, after, other) {
        OtherStepsDisturbNothing(s, id, choice, other);
      }
    }
  }

  /** A call that never held the lock has been harmless all along. */
  lemma UnlockedCallsAreHarmless(h: History, i: nat)
    requires FreshRun(h.trace) && InOrder(h) && NeverHeld(h)
    requires |h.start| <= i < |h.trace| && h.trace[i].Act? && h.trace[i].id == h.me
    ensures Harmless(Reached(h.trace[..i]), Reached(h.trace[..i + 1]), h.me)
  {
    var front, event := h.trace[..i], h.trace[i];
    EventIsFresh(h.trace, i);
    NextReached(h.trace, i);
    if i + 1 == |h.trace| { assert h.trace[..i + 1] == h.trace; }
    UnlockedStepIsHarmless(Reached(front), h.me, event.choice, Reached(h.trace[..i + 1]));
  }

  /** The job has never held the lock, and none of its calls has done anything to anybody else. */
  ghost predicate KeptOut(h: History) {
    && NeverHeld(h)
    && forall i | |h.start| <= i < |h.trace| && h.trace[i].Act? && h.trace[i].id == h.me ::
         Harmless(Reached(h.trace[..i]), Reached(h.trace[..i + 1]), h.me)
  }

  lemma NeverHeldKeepsOut(h: History)
    requires FreshRun(h.trace) && InOrder(h) && NeverHeld(h)
    ensures KeptOut(h)
  {
    forall i | |h.start| <= i < |h.trace| && h.trace[i].Act? && h.trace[i].id == h.me
      ensures Harmless(Reached(h.trace[..i]), Reached(h.trace[..i + 1]), h.me)
    {
      UnlockedCallsAreHarmless(h, i);
    }
  }

  lemma NextReached(trace: seq<Event>, i: nat)
    requires i < |trace|
    ensures Reached(trace[..i + 1]) == Next(Reached(trace[..i]), trace[i])
  {
    assert trace[..i + 1] == trace[..i] + [trace[i]];
    RunAppend(Next, EMPTY_STORE, trace[..i], trace[i]);
  }

  lemma EventIsFresh(trace: seq<Event>, i: nat)
    requires FreshRun(trace) && i < |trace|
    ensures Inv(Reached(trace[..i])) && FreshName(Reached(trace[..i]), trace[i])
  {
    AdmissibleParts(Next, EMPTY_STORE, trace, FreshName, i + 1);
    LastEventIsFresh(trace[..i + 1]);
    assert trace[..i + 1][..i] == trace[..i];
  }

  /** How a system call ended: carried out, impossible on this state, or failed for another reason. */
  datatype CallResult = Done | Refused | Faulted

  class Store {
    var phase: Phase
    var rows: map<string, Row>
    var sites: map<string, Tree>
    var tmp: map<string, Tree>
    var holder: Option<JobId>
    var jobs: map<JobId, Job>
    var stale: set<string>
    /** What the other jobs will do, in their order; how it falls between the calls of this job is open. */
    var pending: seq<Event>
    ghost var history: History
    /** The failed calls and the drawn names of the current call. */
    ghost var faults: nat
    ghost var draws: seq<Draw>

    constructor (others: seq<Event>)
      ensures Valid() && World() == EMPTY_STORE && pending == others
    {
      phase, rows, sites, tmp, holder, jobs, stale := Serving, map[], map[], map[], None, map[], {};
      pending := others;
      history, faults, draws := History(0, [], others, [], None, None, None, None), 0, [];
      assert FreshRun([]) && Reached([]) == EMPTY_STORE;
      NothingHappenedYet(History(0, [], others, [], None, None, None, None));
      IsTold(History(0, [], others, [], None, None, None, None), others, 0, [], EMPTY_STORE);
    }

    function World(): State
      reads this
    {
      State(phase, rows, sites, tmp, holder, jobs, stale)
    }

    /** The history leads to the given state. */
    ghost predicate Tells(s: State)
      reads this
    {
      Reachable(s) && Told(history, pending, faults, draws, s)
    }

    ghost predicate Valid()
      reads this
    {
      Tells(World())
    }

    /** The history but for the events themselves, which every call goes on writing. */
    ghost function Plan(): History
      reads this
    {
      history.(trace := [])
    }

    /** The live job of the current call, marked as holding the lock when it does. */
    ghost predicate Placed(id: JobId)
      reads this
    {
      id in jobs && id == history.me && (history.locked.Some? <==> holder == Some(id))
    }

    /** Where the job of the current call is, in a serving process, before it takes the lock. */
    ghost predicate At(id: JobId, task: Task, pc: Pc, content: Ownership)
      reads this
    {
      Placed(id) && jobs[id] == Job(task, pc, content) && phase.Serving? && holder != Some(id)
    }

    /** Where it is under the lock. */
    ghost predicate Holds(id: JobId, task: Task, pc: Pc, content: Ownership)
      reads this
    {
      Placed(id) && jobs[id] == Job(task, pc, content) && phase.Serving? && holder == Some(id)
    }

    // ---------- Other jobs ----------

    /** The schedule has run out, or goes on with an event that cannot happen now. */
    predicate Stalled(id: JobId)
      reads this
    {
      pending == [] || !OthersMay(World(), pending[0], id)
    }

    /** The next event of another job happens. */
    method Admit(id: JobId)
      requires Valid() && Placed(id) && !Stalled(id)
      modifies this
      ensures Valid() && Placed(id) && Undisturbed(old(World()), World(), id)
      ensures Plan() == old(Plan()) && faults == old(faults) && draws == old(draws)
      ensures pending == old(pending)[1..]
    {
      ghost var before := World();
      Happen(pending[0]);
      OthersDisturbNothing(before, pending[0], id, World());
      ToldOther(history, pending, faults, draws, before, World());
      history := history.(trace := history.trace + [pending[0]]);
      pending := pending[1..];
    }

    method Happen(event: Event)
      modifies this`phase, this`rows, this`sites, this`tmp, this`holder, this`jobs, this`stale
      requires FreshName(World(), event)
      ensures Occurs(old(World()), event, World())
    {
      EventOccurs(World(), event);
      var s := Next(World(), event);
      phase, rows, sites, tmp, holder, jobs, stale := s.phase, s.rows, s.sites, s.tmp, s.holder, s.jobs, s.stale;
    }

    /** Any number of events of other jobs happen. */
    method Interfere(id: JobId)
      requires Valid() && Placed(id)
      modifies this
      ensures Valid() && Placed(id) && Undisturbed(old(World()), World(), id)
      ensures Plan() == old(Plan()) && faults == old(faults) && draws == old(draws)
    {
      var steps: int := *;
      while 0 < steps && !Stalled(id)
        invariant Valid() && Placed(id) && Undisturbed(old(World()), World(), id)
        invariant Plan() == old(Plan()) && faults == old(faults) && draws == old(draws)
      {
        ghost var before := World();
        Admit(id);
        UndisturbedTwice(old(World()), before, World(), id);
        steps := steps - 1;
      }
    }

    // ---------- The calling job ----------

    /** Records what a call, whose effect the fields already show, makes of the job itself. */
    method Conclude(id: JobId, next: Option<Job>, ghost before: State, ghost choice: Choice)
      requires Tells(before) && id == history.me && (history.locked.None? ==> holder != Some(id))
      requires Takes(before, id, choice, World().(jobs := Updated(jobs, id, next)))
      modifies this`jobs, this`history, this`faults, this`draws
      ensures Valid() && jobs == Updated(old(jobs), id, next) && Plan() == old(Plan())
      ensures faults == old(faults) + if FaultChoice(choice) then 1 else 0
      ensures draws == old(draws) + if choice.Pick? then [Draw(before, choice.name)] else []
    {
      Write(before, choice, World().(jobs := Updated(jobs, id, next)));
      jobs := Updated(jobs, id, next);
    }

    /** One more event of this job in its history. */
    ghost method Write(before: State, choice: Choice, after: State)
      requires Tells(before) && Takes(before, history.me, choice, after)
      requires history.locked.None? ==> after.holder != Some(history.me)
      modifies this`history, this`faults, this`draws
      ensures Tells(after) && Plan() == old(Plan())
      ensures faults == old(faults) + if FaultChoice(choice) then 1 else 0
      ensures draws == old(draws) + if choice.Pick? then [Draw(before, choice.name)] else []
    {
      ToldOwn(history, pending, faults, draws, before, choice, after);
      history := history.(trace := history.trace + [Act(history.me, choice)]);
      faults := faults + if FaultChoice(choice) then 1 else 0;
      draws := draws + if choice.Pick? then [Draw(before, choice.name)] else [];
    }

    /** The job goes on from reading the clock. */
    method ConcludeAt(id: JobId, next: Job, ghost before: State, now: int)
      requires Tells(before) && id == history.me && (history.locked.None? ==> holder != Some(id))
      requires Takes(before, id, Choice.At(now), World().(jobs := jobs[id := next]))
      modifies this`jobs, this`history
      ensures Valid() && jobs == old(jobs)[id := next] && Plan() == old(Plan()).(clock := Some(now))
    {
      jobs := jobs[id := next];
      ToldClock(history, pending, faults, draws, before, now, World());
      history := history.(trace := history.trace + [Act(id, Choice.At(now))], clock := Some(now));
    }

    /** Admits a job and begins its history. */
    method Begin(id: JobId, task: Task)
      requires Valid() && phase.Serving? && id !in jobs && ValidTask(task)
      modifies this`jobs, this`history, this`faults, this`draws
      ensures Valid() && At(id, task, if Stages(task) then Opening(0) else Waiting, NO_CONTENT)
      ensures Plan() == History(id, old(history.trace) + [Start(id, task)], pending, [], None, None, None, None)
      ensures faults == 0 && draws == []
    {
      ghost var before := World();
      ReachableIsInvariant(before);
      EventOccurs(before, Start(id, task));
      jobs := jobs[id := Job(task, if Stages(task) then Opening(0) else Waiting, NO_CONTENT)];
      BeginHistory(before, Start(id, task), id);
    }

    /** A history of its own for a call, or for the process after a crash. */
    ghost method BeginHistory(before: State, event: Event, id: JobId)
      requires Tells(before) && Occurs(before, event, World()) && holder != Some(id)
      modifies this`history, this`faults, this`draws
      ensures Valid() && faults == 0 && draws == []
      ensures Plan() == History(id, old(history.trace) + [event], pending, [], None, None, None, None)
    {
      Recall(history, pending, faults, draws, before);
      CallBegins(history, pending, faults, draws, before, event, World(), id);
      history := History(id, history.trace + [event], pending, history.trace + [event], None, None, None, None);
      faults, draws := 0, [];
      IsTold(history, pending, faults, draws, World());
    }

    /** The process dies: jobs and the lock are gone, and the next process boots. */
    method Crash()
      requires Valid()
      modifies this
      ensures Valid() && World() == Crashed(old(World()))
      ensures Plan() == History(old(history.me), old(history.trace) + [Event.Crash], pending, [], None, None, None, None)
      ensures pending == old(pending) && faults == 0 && draws == []
    {
      ghost var before := World();
      phase, holder, jobs, stale := ClearingTmp, None, map[], stale + Torn(World());
      EventOccurs(before, Event.Crash);
      BeginHistory(before, Event.Crash, history.me);
    }

    /** Waits for the mutation lock while other jobs run; false if the schedule ends before it is free. */
    method Acquire(id: JobId) returns (acquired: bool)
      requires Valid() && Placed(id) && phase.Serving? && jobs[id].pc.Waiting? && holder != Some(id)
      requires history.closing.None? && history.closed.None?
      modifies this
      ensures Valid() && faults == old(faults) && draws == old(draws)
      ensures !acquired ==>
        && Placed(id) && jobs[id] == old(jobs[id]) && holder.Some? && holder != Some(id) && Stalled(id)
        && phase.Serving? && Plan() == old(Plan())
      ensures acquired ==>
        && Holds(id, old(jobs[id]).task, if old(jobs[id]).task.Publish? then Dating else Finding, old(jobs[id]).content)
        && history.locked.Some? && Reached(history.locked.value) == World()
        && Plan().(locked := None) == old(Plan())
    {
      Interfere(id);
      while holder.Some? && !Stalled(id)
        invariant Valid() && Placed(id) && Undisturbed(old(World()), World(), id)
        invariant Plan() == old(Plan()) && faults == old(faults) && draws == old(draws)
        decreases |pending|
      {
        ghost var before := World();
        Admit(id);
        UndisturbedTwice(old(World()), before, World(), id);
      }
      if holder.Some? { return false; }
      TakeLock(id);
      acquired := true;
    }

    method TakeLock(id: JobId)
      requires Valid() && Placed(id) && phase.Serving? && jobs[id].pc.Waiting? && holder.None?
      requires history.closing.None? && history.closed.None?
      modifies this`jobs, this`holder, this`history
      ensures Valid()
      ensures Holds(id, old(jobs[id]).task, if old(jobs[id]).task.Publish? then Dating else Finding, old(jobs[id]).content)
      ensures history.locked.Some? && Reached(history.locked.value) == World() && Plan().(locked := None) == old(Plan())
    {
      ghost var before := World();
      AwaitTakes(before, id);
      jobs := jobs[id := jobs[id].(pc := if jobs[id].task.Publish? then Dating else Finding)];
      holder := Some(id);
      WriteLock(before, World());
    }

    /** The taking of the lock in the history. */
    ghost method WriteLock(before: State, after: State)
      requires Tells(before) && Takes(before, history.me, Proceed, after)
      requires history.locked.None? && history.closing.None? && history.closed.None? && after.holder == Some(history.me)
      modifies this`history
      ensures Tells(after) && history.locked.Some? && Reached(history.locked.value) == after
      ensures Plan().(locked := None) == old(Plan())
    {
      ToldLock(history, pending, faults, draws, before, after);
      history := history.(trace := history.trace + [Act(history.me, Proceed)]);
      history := history.(locked := Some(history.trace));
    }

    /** Gives the lock back and ends the job. */
    method Release(id: JobId)
      requires Valid() && Placed(id) && jobs[id].pc.Releasing? && holder == Some(id)
      modifies this
      ensures Valid() && id !in jobs && holder.None? && faults == old(faults) && draws == old(draws)
      ensures rows == old(rows) && sites == old(sites) && phase == old(phase) && Plan() == old(Plan())
      ensures phase.Serving? ==> Sound(World())
    {
      Interfere(id);
      ghost var before := World();
      ReleaseTakes(before, id);
      holder := None;
      Conclude(id, None, before, Proceed);
      if phase.Serving? { ReachableIsSound(World()); }
    }

    /** One call of the boot in the history. */
    ghost method RecordBoot(before: State, decision: BootChoice)
      requires Tells(before) && BootStep(before, decision) == World() && !before.phase.Serving? && AfterCrash(history)
      modifies this`history, this`faults
      ensures Valid() && Plan() == old(Plan()) && faults == old(faults) + if BootFault(decision) then 1 else 0
    {
      ReachableIsInvariant(before);
      EventOccurs(before, Boot(decision));
      ToldBoot(history, pending, faults, draws, before, decision, World());
      history := history.(trace := history.trace + [Boot(decision)]);
      faults := faults + if BootFault(decision) then 1 else 0;
    }

    /** The cleanup begins. */
    ghost method BeginCleanup()
      requires Valid() && history.closing.None? && history.closed.None? && CleaningUp(World(), history.me)
      modifies this`history
      ensures Valid() && Plan() == old(Plan()).(closing := history.closing)
      ensures history.closing.Some? && Reached(history.closing.value) == World()
      ensures FaultsBeforeCleanup(history) == faults
    {
      Recall(history, pending, faults, draws, World());
      ClosingIsMarked(history, pending, faults, draws, World());
      history := history.(closing := Some(history.trace));
      IsTold(history, pending, faults, draws, World());
    }

    /** The cleanup is over. */
    ghost method EndCleanup()
      requires Valid() && history.closing.Some? && CleanedUp(World(), history.me)
      modifies this`history
      ensures Valid() && Plan() == old(Plan()).(closed := history.closed)
      ensures history.closed.Some? && Reached(history.closed.value) == World()
    {
      Recall(history, pending, faults, draws, World());
      ClosedIsMarked(history, pending, faults, draws, World());
      history := history.(closed := Some(history.trace));
      IsTold(history, pending, faults, draws, World());
    }

    /** What the history of a call without the lock says. */
    lemma Retell()
      requires Valid() && history.locked.None?
      ensures KeptOut(history)
    {
      Recall(history, pending, faults, draws, World());
      NeverHeldKeepsOut(history);
    }

    /** Whether a call fails for reasons outside the store. */
    method Fault() returns (fault: bool) {
      fault := *;
    }

    /** The clock, which may not be readable. */
    method Now() returns (now: Option<int>) {
      var time: int := *;
      var fault := Fault();
      now := if fault then None else Some(time);
    }

    /** A random slug; entropy may fail, and no name comes up that a replacement awaits. */
    method Generate() returns (name: Option<string>)
      ensures name.Some? ==> ValidSlug(name.value) && (name.value in tmp || !Awaited(World(), name.value))
    {
      var drawn: string := *;
      name := if ValidSlug(drawn) && (drawn in tmp || !Awaited(World(), drawn)) then Some(drawn) else None;
    }

    /** A random slug for a publication; entropy may fail. */
    method RandomSlug() returns (slug: Option<string>)
      ensures slug.Some? ==> ValidSlug(slug.value)
    {
      var drawn: string := *;
      slug := if ValidSlug(drawn) then Some(drawn) else None;
    }

    // ---------- System calls ----------

    /** An exclusive `create_dir` in `tmp`. */
    method CreateStaging(name: string) returns (r: CallResult)
      modifies this`tmp
      ensures r.Done? ==> name !in old(tmp) && tmp == old(tmp)[name := EMPTY_DIRECTORY]
      ensures r.Refused? ==> name in tmp
      ensures !r.Done? ==> tmp == old(tmp)
    {
      var fault := Fault();
      if fault { return Faulted; }
      if name in tmp { return Refused; }
      tmp := tmp[name := EMPTY_DIRECTORY];
      r := Done;
    }

    /** An exclusive `create_dir` in `sites`. */
    method CreateSite(slug: string) returns (r: CallResult)
      modifies this`sites
      ensures r.Done? ==> slug !in old(sites) && sites == old(sites)[slug := EMPTY_DIRECTORY]
      ensures r.Refused? ==> slug in sites
      ensures !r.Done? ==> sites == old(sites)
    {
      var fault := Fault();
      if fault { return Faulted; }
      if slug in sites { return Refused; }
      sites := sites[slug := EMPTY_DIRECTORY];
      r := Done;
    }

    /** `rename` from `tmp` into `sites`, onto nothing or an empty directory. */
    method RenameIntoSites(name: string, slug: string, restoring: bool) returns (r: CallResult)
      modifies this`sites, this`tmp
      ensures r.Done? ==>
        && name in old(tmp) && FreeFor(old(sites), slug)
        && sites == old(sites)[slug := old(tmp)[name]] && tmp == old(tmp) - {name}
      ensures r.Refused? ==> !(name in tmp && FreeFor(sites, slug))
      ensures !r.Done? ==> sites == old(sites) && tmp == old(tmp)
      ensures restoring ==> !r.Faulted?
    {
      if !restoring {
        var fault := Fault();
        if fault { return Faulted; }
      }
      if !(name in tmp && FreeFor(sites, slug)) { return Refused; }
      sites, tmp := sites[slug := tmp[name]], tmp - {name};
      r := Done;
    }

    /** `rename` from `sites` into `tmp`, onto nothing or an empty directory. */
    method RenameIntoTmp(slug: string, name: string, restoring: bool) returns (r: CallResult)
      modifies this`sites, this`tmp
      ensures r.Done? ==>
        && slug in old(sites) && FreeFor(old(tmp), name)
        && tmp == old(tmp)[name := old(sites)[slug]] && sites == old(sites) - {slug}
      ensures r.Refused? ==> !(slug in sites && FreeFor(tmp, name))
      ensures !r.Done? ==> sites == old(sites) && tmp == old(tmp)
      ensures restoring ==> !r.Faulted?
    {
      if !restoring {
        var fault := Fault();
        if fault { return Faulted; }
      }
      if !(slug in sites && FreeFor(tmp, name)) { return Refused; }
      tmp, sites := tmp[name := sites[slug]], sites - {slug};
      r := Done;
    }

    /** The non-recursive `remove_dir` of a site directory. */
    method RemoveEmptySite(slug: string) returns (r: CallResult)
      modifies this`sites
      ensures r.Done? ==> slug in old(sites) && old(sites)[slug] == EMPTY_DIRECTORY && sites == old(sites) - {slug}
      ensures r.Refused? ==> !(slug in sites && sites[slug] == EMPTY_DIRECTORY)
      ensures !r.Done? ==> sites == old(sites)
    {
      var fault := Fault();
      if fault { return Faulted; }
      if !(slug in sites && sites[slug] == EMPTY_DIRECTORY) { return Refused; }
      sites := sites - {slug};
      r := Done;
    }

    /** The recursive creation of a parent directory and the exclusive creation of one file below staging. */
    method WriteStagedFile(staging: string, file: SiteFile) returns (r: CallResult)
      requires staging in tmp
      modifies this`tmp
      ensures r.Done? ==>
        && WriteOne(old(tmp)[staging], file).Some?
        && tmp == old(tmp)[staging := WriteOne(old(tmp)[staging], file).value]
      ensures r.Refused? ==> WriteOne(old(tmp)[staging], file).None?
      ensures r.Refused? && WellFormed(old(tmp)[staging]) && ValidNested(file.name) ==> tmp == old(tmp)
      ensures staging in tmp && tmp == old(tmp)[staging := tmp[staging]]
    {
      var fault := Fault();
      if fault {
        var partial: Tree := *;
        tmp := tmp[staging := partial];
        return Faulted;
      }
      if WellFormed(tmp[staging]) && ValidNested(file.name) && WriteOne(tmp[staging], file).None? {
        RefusedWriteMakesNothing(tmp[staging], file);
      }
      var p := Parts(file);
      if |p| != 1 {
        var made := MkdirAll(tmp[staging], Parent(p));
        if made.None? { return Refused; }
        tmp := tmp[staging := made.value];
      }
      var created := CreateNew(tmp[staging], p, file.bytes);
      if created.None? { return Refused; }
      tmp := tmp[staging := created.value];
      r := Done;
    }

    // ---------- Rows ----------

    /** An uncommitted insertion, which only a row of the same slug refuses. */
    method InsertRow(slug: string) returns (r: CallResult)
      ensures r.Done? ==> slug !in rows
      ensures r.Refused? ==> slug in rows
    {
      var fault := Fault();
      if fault { return Faulted; }
      r := if slug in rows then Refused else Done;
    }

    /** A commit: an error leaves open whether the row was written. */
    method CommitRow(slug: string, row: Row) returns (r: CallResult, applied: bool)
      modifies this`rows, this`stale
      ensures rows == if applied then old(rows)[slug := row] else old(rows)
      ensures stale == if applied then old(stale) - {slug} else old(stale)
      ensures !r.Refused? && (r.Done? ==> applied)
    {
      var fault := Fault();
      applied := !fault;
      if fault { applied := *; }
      if applied { rows, stale := rows[slug := row], stale - {slug}; }
      r := if fault then Faulted else Done;
    }

    /** `replace_site`: one statement that writes entry, counts and time, or changes nothing. */
    method ReplaceRow(slug: string, input: NewSite, now: int) returns (r: CallResult)
      modifies this`rows, this`stale
      ensures r.Done? ==>
        && slug in old(rows) && rows == old(rows)[slug := ReplacedRow(old(rows)[slug], input, now)]
        && stale == old(stale) - {slug}
      ensures r.Refused? ==> slug !in rows
      ensures !r.Done? ==> rows == old(rows) && stale == old(stale)
    {
      var fault := Fault();
      if fault { return Faulted; }
      if slug !in rows { return Refused; }
      rows, stale := rows[slug := ReplacedRow(rows[slug], input, now)], stale - {slug};
      r := Done;
    }

    /** `update_site`: an error leaves open whether the row was written. */
    method UpdateRow(slug: string, settings: Settings, now: int) returns (r: CallResult, applied: bool)
      modifies this`rows
      ensures applied ==> slug in old(rows) && rows == old(rows)[slug := UpdatedRow(old(rows)[slug], settings, now)]
      ensures !applied ==> rows == old(rows)
      ensures (r.Done? ==> applied) && (r.Refused? ==> slug !in rows && !applied)
    {
      var fault := Fault();
      applied := !fault;
      if fault { applied := *; }
      if slug !in rows { applied := false; }
      if applied { rows := rows[slug := UpdatedRow(rows[slug], settings, now)]; }
      r := if fault then Faulted else if applied then Done else Refused;
    }

    /** `delete_site`: an error leaves open whether the row was removed. */
    method DeleteRow(slug: string) returns (r: CallResult, applied: bool)
      modifies this`rows, this`stale
      ensures rows == if applied then old(rows) - {slug} else old(rows)
      ensures stale == if applied then old(stale) - {slug} else old(stale)
      ensures (r.Done? ==> slug in old(rows) && applied) && (r.Refused? ==> slug !in old(rows) && !applied)
    {
      var fault := Fault();
      applied := slug in rows;
      if fault { applied := *; }
      r := if fault then Faulted else if applied then Done else Refused;
      if applied { rows, stale := rows - {slug}, stale - {slug}; }
    }

    // ---------- Recursive removal ----------

    /** Removes the whole directory that the job is at, possibly after stopping part way; false is an error. */
    method RemoveTmpTree(id: JobId) returns (ok: bool)
      requires Valid() && Placed(id) && phase.Serving? && Removing(jobs[id]).Some?
      requires Removing(jobs[id]).value in tmp
      modifies this
      ensures Valid() && phase == old(phase) && Plan() == old(Plan())
      ensures Removed(old(jobs[id])).None? ==> id !in jobs
      ensures Removed(old(jobs[id])).Some? ==> Placed(id) && jobs[id] == Removed(old(jobs[id])).value
      ensures holder == Some(id) <==> old(holder) == Some(id)
      ensures old(holder) == Some(id) ==> rows == old(rows) && sites == old(sites)
      ensures ok ==> old(Removing(jobs[id])).value !in tmp
      ensures faults == old(faults) + (if ok then 0 else 1) && draws == old(draws)
    {
      var pauses: int := *;
      while 0 < pauses
        invariant Valid() && Placed(id) && phase == old(phase) && jobs[id] == old(jobs[id]) && Plan() == old(Plan())
        invariant faults == old(faults) && draws == old(draws)
        invariant holder == Some(id) <==> old(holder) == Some(id)
        invariant old(holder) == Some(id) ==> rows == old(rows) && sites == old(sites)
        invariant Removing(jobs[id]).value in tmp
      {
        RemovePart(id);
        pauses := pauses - 1;
      }
      ok := RemoveRest(id);
    }

    /** The removal ends, or fails where it is. */
    method RemoveRest(id: JobId) returns (ok: bool)
      requires Valid() && Placed(id) && phase.Serving? && Removing(jobs[id]).Some?
      requires Removing(jobs[id]).value in tmp
      modifies this
      ensures Valid() && phase == old(phase) && Plan() == old(Plan())
      ensures Removed(old(jobs[id])).None? ==> id !in jobs
      ensures Removed(old(jobs[id])).Some? ==> Placed(id) && jobs[id] == Removed(old(jobs[id])).value
      ensures holder == Some(id) <==> old(holder) == Some(id)
      ensures old(holder) == Some(id) ==> rows == old(rows) && sites == old(sites)
      ensures ok ==> old(Removing(jobs[id])).value !in tmp
      ensures faults == old(faults) + (if ok then 0 else 1) && draws == old(draws)
    {
      Interfere(id);
      var fault := Fault();
      ok := !fault;
      if fault { GiveUpRemoval(id); } else { EndRemoval(id); }
    }

    /** The directory itself goes, once other jobs have had their turn. */
    method EndRemoval(id: JobId)
      requires Valid() && Placed(id) && Removing(jobs[id]).Some?
      modifies this`tmp, this`jobs, this`history, this`faults, this`draws
      ensures Valid() && Plan() == old(Plan()) && jobs == Updated(old(jobs), id, Removed(old(jobs[id])))
      ensures tmp == old(tmp) - {old(Removing(jobs[id]).value)} && faults == old(faults) && draws == old(draws)
    {
      ghost var before := World();
      StandsSomewhere(before, id);
      RemovalTakes(before, id);
      tmp := tmp - {Removing(jobs[id]).value};
      Conclude(id, Removed(jobs[id]), before, Proceed);
    }

    /** The removal fails where it is. */
    method GiveUpRemoval(id: JobId)
      requires Valid() && Placed(id) && Removing(jobs[id]).Some?
      modifies this`jobs, this`history, this`faults, this`draws
      ensures Valid() && Plan() == old(Plan()) && jobs == Updated(old(jobs), id, Removed(old(jobs[id])))
      ensures faults == old(faults) + 1 && draws == old(draws)
    {
      ghost var before := World();
      StandsSomewhere(before, id);
      RemovalTakes(before, id);
      Conclude(id, Removed(jobs[id]), before, Fail);
    }

    /** Some entries of the directory are gone, in no particular order. */
    method RemovePart(id: JobId)
      requires Valid() && Placed(id) && Removing(jobs[id]).Some? && Removing(jobs[id]).value in tmp
      modifies this
      ensures Valid() && Placed(id) && phase == old(phase) && jobs[id] == old(jobs[id]) && Plan() == old(Plan())
      ensures holder == Some(id) <==> old(holder) == Some(id)
      ensures old(holder) == Some(id) ==> rows == old(rows) && sites == old(sites)
      ensures Removing(jobs[id]).value in tmp && faults == old(faults) && draws == old(draws)
    {
      RemovingIsClaimed(World(), id);
      Interfere(id);
      RemovePartNow(id);
    }

    method RemovePartNow(id: JobId)
      requires Valid() && Placed(id) && Removing(jobs[id]).Some? && Removing(jobs[id]).value in tmp
      modifies this`tmp, this`jobs, this`history, this`faults, this`draws
      ensures Valid() && jobs == old(jobs) && Plan() == old(Plan()) && faults == old(faults) && draws == old(draws)
      ensures Removing(jobs[id]).value in tmp
    {
      ghost var before := World();
      var gone: set<Path> := *;
      var rest := tmp[Removing(jobs[id]).value] - gone;
      StandsSomewhere(before, id);
      PartialRemovalTakes(before, id, rest);
      tmp := tmp[Removing(jobs[id]).value := rest];
      Conclude(id, Some(jobs[id]), before, Leave(rest));
      assert jobs == old(jobs);
    }
  }

  lemma RemovingIsClaimed(s: State, id: JobId)
    requires Reachable(s) && id in s.jobs && Removing(s.jobs[id]).Some?
    ensures Removing(s.jobs[id]).value in Claims(s.jobs[id])
  {
    Known(s, id);
  }
}
