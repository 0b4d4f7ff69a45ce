/** What happened while a call was running: every event, whose it was, and where the call stood. */
module Histories {
  import opened Invariants
  import opened Machine
  import opened Protocol
  import opened Runs
  import opened Wrappers

  /**
   * The history of one call. `start` is all that happened up to the event with which it began, `trace` all
   * that has happened so far; `script` is what the other jobs do from the start of the call on, in their
   * order, however it falls between the calls of this job. The other fields are the histories up to the
   * moments at which this job took the lock, began to clean up and was done with that, and the time it read.
   */
  datatype History = History(
    me: JobId, start: seq<Event>, script: seq<Event>, trace: seq<Event>,
    locked: Option<seq<Event>>, closing: Option<seq<Event>>, closed: Option<seq<Event>>, clock: Option<int>)

  /** A name that was drawn, and the state in which it was tried. */
  datatype Draw = Draw(state: State, name: string)

  predicate Other(event: Event, me: JobId) {
    (event.Start? || event.Act?) && event.id != me
  }

  /** The events of other jobs, in order. */
  function Others(events: seq<Event>, me: JobId): seq<Event> {
    if events == [] then []
    else
      Others(events[..|events| - 1], me)
      + if Other(events[|events| - 1], me) then [events[|events| - 1]] else []
  }

  /** The environment made the call fail. */
  predicate FaultChoice(choice: Choice) {
    choice.Fail? || choice.Unsure? || choice.Spoil?
  }

  /** A call of the boot failed, or a removal stopped part way. */
  predicate BootFault(decision: BootChoice) {
    decision.ShrinkTmp? || decision.ShrinkSite? || decision.Miss?
  }

  function FaultOf(event: Event, me: JobId): nat {
    if (event.Act? && event.id == me && FaultChoice(event.choice)) || (event.Boot? && BootFault(event.decision)) then 1
    else 0
  }

  /** How many calls of this job, or of the boot, failed. */
  function FaultsOf(events: seq<Event>, me: JobId): nat {
    if events == [] then 0 else FaultsOf(events[..|events| - 1], me) + FaultOf(events[|events| - 1], me)
  }

  function DrawOf(s: State, event: Event, me: JobId): seq<Draw> {
    if event.Act? && event.id == me && event.choice.Pick? then [Draw(s, event.choice.name)] else []
  }

  /** The names this job drew after the first `from` events. */
  ghost function DrawsOf(trace: seq<Event>, from: nat, me: JobId): seq<Draw> {
    if |trace| <= from then []
    else
      var front := trace[..|trace| - 1];
      DrawsOf(front, from, me) + DrawOf(Reached(front), trace[|trace| - 1], me)
  }

  /** The moments are in order, and the clock was read during the call. */
  ghost predicate InOrder(h: History) {
    && h.start <= h.trace
    && (h.locked.Some? ==> h.start <= h.locked.value <= h.trace)
    && (h.closing.Some? ==> h.start <= h.closing.value <= h.trace)
    && (h.locked.Some? && h.closing.Some? ==> h.locked.value <= h.closing.value)
    && (h.closed.Some? ==> h.closing.Some? && h.closing.value <= h.closed.value <= h.trace)
    && (h.clock.Some? ==> Act(h.me, At(h.clock.value)) in h.trace[|h.start|..])
  }

  /** The history is that of the boot after a crash, not of a call. */
  predicate AfterCrash(h: History) {
    h.start != [] && h.start[|h.start| - 1].Crash?
  }

  /** While a call runs only jobs start and make calls, none of them under its own identity; a boot has its calls. */
  predicate Belongs(event: Event, me: JobId, booting: bool) {
    && (event.Start? || event.Act? || (event.Boot? && booting))
    && !(event.Start? && event.id == me)
  }

  /** No crash, and no boot but after one, falls into the history. */
  ghost predicate Unbroken(h: History) {
    forall i | |h.start| <= i < |h.trace| :: Belongs(h.trace[i], h.me, AfterCrash(h))
  }

  /** From the given moment on, and until the last event, the job did not hold the lock. */
  ghost predicate Waited(events: seq<Event>, from: nat, me: JobId) {
    forall i | from <= i < |events| :: Reached(events[..i]).holder != Some(me)
  }

  /** The job has never held the lock. */
  ghost predicate NeverHeld(h: History) {
    Reached(h.trace).holder != Some(h.me) && Waited(h.trace, |h.start|, h.me)
  }

  /** The job holds the lock, and did not before. */
  ghost predicate HeldFirst(h: History, t: seq<Event>) {
    Reached(t).holder == Some(h.me) && Waited(t, |h.start|, h.me)
  }

  /** The job is about to clean up: its next call is the first of the cleanup. */
  predicate CleaningUp(s: State, me: JobId) {
    me in s.jobs && (s.jobs[me].pc.Unreserving? || s.jobs[me].pc.Discarding?)
  }

  /** The job has nothing left to clean up. */
  predicate CleanedUp(s: State, me: JobId) {
    me !in s.jobs || s.jobs[me].pc.Releasing?
  }

  /** The marked moments are what they are called, and the lock was held from its mark on and not before. */
  ghost predicate Marked(h: History) {
    && (match h.locked
        case None => NeverHeld(h)
        case Some(t) => HeldFirst(h, t))
    && (h.closing.Some? ==> CleaningUp(Reached(h.closing.value), h.me))
    && (h.closed.Some? ==> CleanedUp(Reached(h.closed.value), h.me))
  }

  /** The history is a run that leads to the state, and its records are what they say. */
  ghost predicate Tracks(h: History, pending: seq<Event>, faults: nat, draws: seq<Draw>, s: State) {
    && FreshRun(h.trace) && s == Reached(h.trace)
    && InOrder(h) && Unbroken(h)
    && Others(h.trace[|h.start|..], h.me) + pending == h.script
    && faults == FaultsOf(h.trace[|h.start|..], h.me)
    && draws == DrawsOf(h.trace, |h.start|, h.me)
  }

  ghost predicate Chronicle(h: History, pending: seq<Event>, faults: nat, draws: seq<Draw>, s: State) {
    Tracks(h, pending, faults, draws, s) && Marked(h)
  }

  // ---------- Facts kept folded ----------

  // The next two predicates, and `Told` below, are what their innermost clause says. The quantifiers around
  // it only keep the clause folded: it is used where `Asked` is mentioned and proved where `Shown` is.

  predicate Asked(purpose: nat) {
    true
  }

  predicate Shown(purpose: nat) {
    true
  }

  /** A state that some run of the service reaches. */
  ghost predicate Reachable(s: State) {
    forall a: nat {:trigger Asked(a)} :: exists b: nat {:trigger Shown(b)} ::
      exists events :: FreshRun(events) && s == Reached(events)
  }

  /** An event that may happen leads from one state to another. */
  ghost predicate Occurs(s: State, event: Event, after: State) {
    forall a: nat {:trigger Asked(a)} :: exists b: nat {:trigger Shown(b)} :: FreshName(s, event) && Next(s, event) == after
  }

  /** So does a call of one job. */
  ghost predicate Takes(s: State, id: JobId, choice: Choice, after: State) {
    Occurs(s, Act(id, choice), after)
  }

  lemma IsReached(events: seq<Event>, s: State)
    requires FreshRun(events) && s == Reached(events)
    ensures Reachable(s)
  {
    assert Shown(0);
  }

  lemma EventOccurs(s: State, event: Event)
    requires FreshName(s, event)
    ensures Occurs(s, event, Next(s, event))
  {
    assert Shown(0);
  }

  lemma TakesStep(s: State, id: JobId, choice: Choice)
    requires FreshName(s, Act(id, choice))
    ensures Takes(s, id, choice, Step(s, id, choice))
  {
    EventOccurs(s, Act(id, choice));
  }

  lemma RunGoesOn(trace: seq<Event>, s: State, event: Event, after: State)
    requires FreshRun(trace) && s == Reached(trace) && Occurs(s, event, after)
    ensures FreshRun(trace + [event]) && Reached(trace + [event]) == after
  {
    assert Asked(0);
    FreshRunAppend(trace, event);
    RunAppend(Next, EMPTY_STORE, trace, event);
  }

  lemma OthersAppend(events: seq<Event>, event: Event, me: JobId)
    ensures Others(events + [event], me) == Others(events, me) + if Other(event, me) then [event] else []
    ensures FaultsOf(events + [event], me) == FaultsOf(events, me) + FaultOf(event, me)
  {
    assert (events + [event])[..|events|] == events;
  }

  lemma ScriptGoesOn(events: seq<Event>, pending: seq<Event>, event: Event, me: JobId)
    requires Other(event, me) ==> pending != [] && pending[0] == event
    ensures Others(events + [event], me) + (if Other(event, me) then pending[1..] else pending) == Others(events, me) + pending
    ensures FaultsOf(events + [event], me) == FaultsOf(events, me) + FaultOf(event, me)
  {
    OthersAppend(events, event, me);
    var others := Others(events, me);
    if Other(event, me) {
      assert pending == [event] + pending[1..];
      assert others + ([event] + pending[1..]) == (others + [event]) + pending[1..];
    } else {
      assert others + [] == others;
    }
  }

  lemma DrawsAppend(trace: seq<Event>, event: Event, from: nat, me: JobId)
    requires from <= |trace|
    ensures DrawsOf(trace + [event], from, me) == DrawsOf(trace, from, me) + DrawOf(Reached(trace), event, me)
  {
    assert (trace + [event])[..|trace|] == trace;
  }

  lemma InOrderAppend(h: History, event: Event)
    requires InOrder(h)
    ensures InOrder(h.(trace := h.trace + [event]))
    ensures (h.trace + [event])[|h.start|..] == h.trace[|h.start|..] + [event]
  {
    assert h.trace <= h.trace + [event];
  }

  lemma UnbrokenAppend(h: History, event: Event)
    requires InOrder(h) && Unbroken(h) && Belongs(event, h.me, AfterCrash(h))
    ensures Unbroken(h.(trace := h.trace + [event]))
  {
    var longer := h.(trace := h.trace + [event]);
    forall i | |h.start| <= i < |longer.trace| ensures Belongs(longer.trace[i], longer.me, AfterCrash(longer)) {
      if i < |h.trace| { assert longer.trace[i] == h.trace[i]; }
    }
  }

  lemma NeverHeldAppend(h: History, event: Event)
    requires InOrder(h) && NeverHeld(h) && Reached(h.trace + [event]).holder != Some(h.me)
    ensures NeverHeld(h.(trace := h.trace + [event]))
  {
    WaitedAppend(h.trace, |h.start|, h.me, event);
  }

  lemma WaitedAppend(events: seq<Event>, from: nat, me: JobId, event: Event)
    requires Waited(events, from, me) && Reached(events).holder != Some(me)
    ensures Waited(events + [event], from, me)
  {
    var longer := events + [event];
    forall i | from <= i < |longer| ensures Reached(longer[..i]).holder != Some(me) {
      assert longer[..i] == events[..i];
      if i == |events| { assert events[..i] == events; }
    }
  }

  /** One more event, of this job, of another one or of the boot. */
  lemma Recorded(h: History, pending: seq<Event>, faults: nat, draws: seq<Draw>, s: State, event: Event, after: State)
    requires Chronicle(h, pending, faults, draws, s) && Occurs(s, event, after)
    requires Other(event, h.me) ==> pending != [] && pending[0] == event
    requires Belongs(event, h.me, AfterCrash(h))
    requires h.locked.None? ==> after.holder != Some(h.me)
    ensures Chronicle(h.(trace := h.trace + [event]), if Other(event, h.me) then pending[1..] else pending,
                      faults + FaultOf(event, h.me), draws + DrawOf(s, event, h.me), after)
  {
    Tracked(h, pending, faults, draws, s, event, after);
    if h.locked.None? { NeverHeldAppend(h, event); }
  }

  lemma Tracked(h: History, pending: seq<Event>, faults: nat, draws: seq<Draw>, s: State, event: Event, after: State)
    requires Tracks(h, pending, faults, draws, s) && Occurs(s, event, after)
    requires Other(event, h.me) ==> pending != [] && pending[0] == event
    requires Belongs(event, h.me, AfterCrash(h))
    ensures Tracks(h.(trace := h.trace + [event]), if Other(event, h.me) then pending[1..] else pending,
                   faults + FaultOf(event, h.me), draws + DrawOf(s, event, h.me), after)
  {
    RunGoesOn(h.trace, s, event, after);
    InOrderAppend(h, event);
    UnbrokenAppend(h, event);
    RecordsGoOn(h, pending, faults, draws, event);
  }

  lemma RecordsGoOn(h: History, pending: seq<Event>, faults: nat, draws: seq<Draw>, event: Event)
    requires InOrder(h) && (Other(event, h.me) ==> pending != [] && pending[0] == event)
    requires Others(h.trace[|h.start|..], h.me) + pending == h.script
    requires faults == FaultsOf(h.trace[|h.start|..], h.me) && draws == DrawsOf(h.trace, |h.start|, h.me)
    ensures var longer := h.trace + [event];
      && Others(longer[|h.start|..], h.me) + (if Other(event, h.me) then pending[1..] else pending) == h.script
      && faults + FaultOf(event, h.me) == FaultsOf(longer[|h.start|..], h.me)
      && draws + DrawOf(Reached(h.trace), event, h.me) == DrawsOf(longer, |h.start|, h.me)
  {
    InOrderAppend(h, event);
    ScriptGoesOn(h.trace[|h.start|..], pending, event, h.me);
    DrawsAppend(h.trace, event, |h.start|, h.me);
  }

  // ---------- Moments ----------

  /** The call begins with the start of its job, the process after a crash with the crash. */
  lemma CallBegins(h: History, pending: seq<Event>, faults: nat, draws: seq<Draw>, s: State, event: Event, after: State, me: JobId)
    requires Chronicle(h, pending, faults, draws, s) && Occurs(s, event, after) && after.holder != Some(me)
    ensures var t := h.trace + [event];
      Chronicle(History(me, t, pending, t, None, None, None, None), pending, 0, [], after)
  {
    var t := h.trace + [event];
    RunGoesOn(h.trace, s, event, after);
    NothingHappenedYet(History(me, t, pending, t, None, None, None, None));
  }

  lemma NothingHappenedYet(h: History)
    requires h.trace == h.start && h.locked.None? && h.closing.None? && h.closed.None? && h.clock.None?
    requires Reached(h.start).holder != Some(h.me)
    ensures InOrder(h) && Unbroken(h) && Marked(h)
    ensures Others(h.trace[|h.start|..], h.me) == [] && FaultsOf(h.trace[|h.start|..], h.me) == 0
    ensures DrawsOf(h.trace, |h.start|, h.me) == []
  {}

  /** The call that takes the lock is marked with the moment. */
  lemma LockIsMarked(h: History, pending: seq<Event>, faults: nat, draws: seq<Draw>, s: State, event: Event, after: State)
    requires Chronicle(h, pending, faults, draws, s) && Occurs(s, event, after)
    requires !Other(event, h.me) && event.Act? && FaultOf(event, h.me) == 0 && DrawOf(s, event, h.me) == []
    requires h.locked.None? && h.closing.None? && h.closed.None? && after.holder == Some(h.me)
    ensures var t := h.trace + [event]; Chronicle(h.(trace := t, locked := Some(t)), pending, faults, draws, after)
  {
    Tracked(h, pending, faults, draws, s, event, after);
    assert draws + [] == draws;
    WaitedAppend(h.trace, |h.start|, h.me, event);
    HoldsFromNow(h.(trace := h.trace + [event]), pending, faults, draws, after);
  }

  lemma HoldsFromNow(h: History, pending: seq<Event>, faults: nat, draws: seq<Draw>, s: State)
    requires Tracks(h, pending, faults, draws, s) && HeldFirst(h, h.trace) && h.closing.None? && h.closed.None?
    ensures Chronicle(h.(locked := Some(h.trace)), pending, faults, draws, s)
  {}

  lemma ClosingIsMarked(h: History, pending: seq<Event>, faults: nat, draws: seq<Draw>, s: State)
    requires Chronicle(h, pending, faults, draws, s) && h.closed.None? && CleaningUp(s, h.me)
    ensures Chronicle(h.(closing := Some(h.trace)), pending, faults, draws, s)
  {}

  lemma ClosedIsMarked(h: History, pending: seq<Event>, faults: nat, draws: seq<Draw>, s: State)
    requires Chronicle(h, pending, faults, draws, s) && h.closing.Some? && CleanedUp(s, h.me)
    ensures Chronicle(h.(closed := Some(h.trace)), pending, faults, draws, s)
  {}

  lemma ClockIsMarked(h: History, pending: seq<Event>, faults: nat, draws: seq<Draw>, s: State, now: int)
    requires Chronicle(h, pending, faults, draws, s)
    requires |h.start| < |h.trace| && h.trace[|h.trace| - 1] == Act(h.me, At(now))
    ensures Chronicle(h.(clock := Some(now)), pending, faults, draws, s)
  {
    assert h.trace[|h.start|..][|h.trace| - 1 - |h.start|] == Act(h.me, At(now));
  }

  // ---------- What a call promises about its history ----------

  /** The history of a call of the given job, which began after `before` while the others followed `script`. */
  ghost predicate CallOf(h: History, id: JobId, task: Task, before: seq<Event>, script: seq<Event>) {
    h.me == id && h.start == before + [Start(id, task)] && h.script == script
  }

  /** How many calls had failed when the job began to clean up. */
  ghost function FaultsBeforeCleanup(h: History): nat {
    if h.closing.Some? && |h.start| <= |h.closing.value| then FaultsOf(h.closing.value[|h.start|..], h.me) else 0
  }

  /** Some call failed after that. */
  ghost predicate Untidy(h: History, faults: nat) {
    h.closing.Some? && FaultsBeforeCleanup(h) < faults
  }

  /** When the job was done with its cleanup, nothing was left of the staging directory it still owned. */
  ghost predicate Tidied(h: History) {
    && h.closing.Some? && h.closed.Some? && h.me in Reached(h.closing.value).jobs
    && (Reached(h.closing.value).jobs[h.me].content.stagingRemoved || StagingIsGone(h))
  }

  ghost predicate StagingIsGone(h: History) {
    && h.closing.Some? && h.closed.Some? && h.me in Reached(h.closing.value).jobs
    && Reached(h.closing.value).jobs[h.me].content.staging !in Reached(h.closed.value).tmp
  }

  /** Every name that the job tried was taken, so it has staged nothing. */
  ghost predicate NothingStaged(draws: seq<Draw>) {
    forall draw <- draws :: draw.name in draw.state.tmp
  }

  /** Every staging name that the job was allowed to try was taken. */
  ghost predicate StagingNamesRanOut(draws: seq<Draw>) {
    |draws| == MAX_STAGING_ATTEMPTS && NothingStaged(draws)
  }

  // ---------- What is known of a history without looking into it ----------

  ghost predicate Told(h: History, pending: seq<Event>, faults: nat, draws: seq<Draw>, s: State) {
    forall a: nat {:trigger Asked(a)} :: exists b: nat {:trigger Shown(b)} :: Chronicle(h, pending, faults, draws, s)
  }

  lemma ReachableIsInvariant(s: State)
    requires Reachable(s)
    ensures Inv(s)
  {
    assert Asked(0);
    var events :| FreshRun(events) && s == Reached(events);
    RunKeepsInvariant(events);
  }

  lemma IsTold(h: History, pending: seq<Event>, faults: nat, draws: seq<Draw>, s: State)
    requires Chronicle(h, pending, faults, draws, s)
    ensures Told(h, pending, faults, draws, s) && Reachable(s)
  {
    assert Shown(0);
    IsReached(h.trace, s);
  }

  lemma Recall(h: History, pending: seq<Event>, faults: nat, draws: seq<Draw>, s: State)
    requires Told(h, pending, faults, draws, s)
    ensures Chronicle(h, pending, faults, draws, s) && Reachable(s)
  {
    assert Asked(0);
    IsReached(h.trace, s);
  }
}
