/** Admission of password work: two semaphores, cancellation, and failure accounting. */
module Admission {
  import opened Runs

  const MAX_ADMITTED_LOGINS := 16
  const MAX_PASSWORD_WORKERS := 2

  type RequestId = nat

  /** What the blocking job does; a hashing job never touches the limiter. */
  datatype Job = Hash | Verify

  /** How the work itself ended: an error, a new hash, or a decided verification. */
  datatype Outcome = Failed | Hashed | Decided(accepted: bool)

  /** How far the blocking job is: a decided verification has yet to be brought before the limiter. */
  datatype Progress = Running | Verdict | Completed(delayed: bool)

  /** The caller holds admission until it has its answer or is gone; the worker does not depend on it. */
  datatype Request =
    | Admitted(job: Job)
    | Working(job: Job, progress: Progress, callerWaits: bool)
    | Returned(delayed: bool)
    | Delayed

  datatype State = State(
    admission: nat, workers: nat, requests: map<RequestId, Request>,
    outcomes: map<RequestId, Outcome>, accounted: multiset<RequestId>)

  datatype Step =
    | Admit(id: RequestId, job: Job)
    | Engage(id: RequestId)
    | Decide(id: RequestId, outcome: Outcome)
    | Account(id: RequestId, refused: bool, slow: bool)   // the limiter is asked; it may refuse, or ask for a delay
    | Return(id: RequestId)                               // the job is over and drops its worker permit
    | Deliver(id: RequestId)
    | Wake(id: RequestId)
    | Cancel(id: RequestId)

  const INITIAL := State(MAX_ADMITTED_LOGINS, MAX_PASSWORD_WORKERS, map[], map[], multiset{})

  /** A job ends in an error or in the kind of result it works for. */
  predicate Fits(job: Job, outcome: Outcome) {
    outcome.Failed? || (job.Hash? <==> outcome.Hashed?)
  }

  /** The request leaves and gives its admission back. */
  function Left(s: State, id: RequestId): State {
    s.(admission := s.admission + 1, requests := s.requests - {id})
  }

  /** One step of `password_job`; a step that cannot happen changes nothing. */
  function Next(s: State, step: Step): State {
    if step.Admit? then
      if step.id in s.requests || step.id in s.outcomes || s.admission == 0 then s
      else s.(admission := s.admission - 1, requests := s.requests[step.id := Admitted(step.job)])
    else if step.id !in s.requests then s
    else if step.Cancel? then Cancelled(s, step.id, s.requests[step.id])
    else
      match s.requests[step.id]
      case Admitted(job) => if step.Engage? then Engaged(s, step.id, job) else s
      case Working(job, progress, waits) => Worked(s, step, job, progress, waits)
      case Returned(delayed) =>
        if !step.Deliver? then s
        else if delayed then s.(requests := s.requests[step.id := Delayed]) else Left(s, step.id)
      case Delayed => if step.Wake? then Left(s, step.id) else s
  }

  function Engaged(s: State, id: RequestId, job: Job): State {
    if s.workers == 0 then Left(s, id)
    else s.(workers := s.workers - 1, requests := s.requests[id := Working(job, Running, true)])
  }

  /** The blocking job decides, asks the limiter if there was anything to verify, and returns. */
  function Worked(s: State, step: Step, job: Job, progress: Progress, waits: bool): State {
    match progress
    case Running =>
      if !step.Decide? || !Fits(job, step.outcome) then s
      else
        s.(requests := s.requests[step.id := Working(job, if step.outcome.Decided? then Verdict else Completed(false), waits)],
           outcomes := s.outcomes[step.id := step.outcome])
    case Verdict =>
      if !step.Account? then s
      else
        s.(requests := s.requests[step.id := Working(job, Completed(step.slow && !step.refused), waits)],
           accounted := s.accounted + multiset{step.id})
    case Completed(delayed) =>
      if !step.Return? then s
      else
        s.(workers := s.workers + 1,
           requests := if waits then s.requests[step.id := Returned(delayed)] else s.requests - {step.id})
  }

  /** Admission is taken and a worker engaged without a point at which the caller could go. */
  function Cancelled(s: State, id: RequestId, request: Request): State {
    match request
    case Admitted(_) => s
    case Working(job, progress, waits) =>
      if waits then s.(admission := s.admission + 1, requests := s.requests[id := Working(job, progress, false)]) else s
    case Returned(_) => Left(s, id)
    case Delayed => Left(s, id)
  }

  predicate HoldsAdmission(request: Request) {
    request.Working? ==> request.callerWaits
  }

  function Holders(s: State): set<RequestId> {
    set id | id in s.requests && HoldsAdmission(s.requests[id])
  }

  function Workers(s: State): set<RequestId> {
    set id | id in s.requests && s.requests[id].Working?
  }

  /** The verification is decided, and the job has got past the limiter. */
  predicate PastLimiter(s: State, id: RequestId) {
    && id in s.outcomes && s.outcomes[id].Decided?
    && !(id in s.requests && s.requests[id].Working? && s.requests[id].progress.Verdict?)
  }

  /** Whether the request is old enough to have an outcome. */
  predicate HasOutcome(request: Request) {
    !request.Admitted? && (request.Working? ==> !request.progress.Running?)
  }

  /** What is known of one request and its account. */
  predicate AccountOk(s: State, id: RequestId) {
    && (id in s.requests ==>
          && (id in s.outcomes <==> HasOutcome(s.requests[id]))
          && (s.requests[id].Working? && s.requests[id].progress.Verdict? ==> s.outcomes[id].Decided?))
    && s.accounted[id] == if PastLimiter(s, id) then 1 else 0
  }

  /** Permits are conserved, and every decided verification is accounted for when it is past the limiter. */
  ghost predicate Invariant(s: State) {
    && s.admission + |Holders(s)| == MAX_ADMITTED_LOGINS
    && s.workers + |Workers(s)| == MAX_PASSWORD_WORKERS
    && forall id :: AccountOk(s, id)
  }

  lemma SetChange(before: set<RequestId>, after: set<RequestId>, id: RequestId)
    requires forall other | other != id :: other in before <==> other in after
    ensures |after| == |before| - (if id in before then 1 else 0) + (if id in after then 1 else 0)
  {
    assert before - {id} == after - {id};
    assert |before - {id}| == |before| - (if id in before then 1 else 0);
    assert |after - {id}| == |after| - (if id in after then 1 else 0);
  }

  lemma StepKeepsInvariant(s: State, step: Step)
    requires Invariant(s)
    ensures Invariant(Next(s, step))
  {
    var after := Next(s, step);
    SetChange(Holders(s), Holders(after), step.id);
    SetChange(Workers(s), Workers(after), step.id);
    StepKeepsAccounts(s, step);
    StepKeepsPermits(s, step);
  }

  /** The permits a step returns are those that its request no longer holds. */
  lemma StepKeepsPermits(s: State, step: Step)
    requires Invariant(s)
    ensures var after := Next(s, step);
      && after.admission as int - s.admission
         == (if step.id in Holders(s) then 1 else 0) - (if step.id in Holders(after) then 1 else 0)
      && after.workers as int - s.workers
         == (if step.id in Workers(s) then 1 else 0) - (if step.id in Workers(after) then 1 else 0)
  {}

  lemma StepKeepsAccounts(s: State, step: Step)
    requires Invariant(s)
    ensures forall id :: AccountOk(Next(s, step), id)
  {
    forall id ensures AccountOk(Next(s, step), id) {
      assert AccountOk(s, id);
      if id == step.id { OwnAccountStaysOk(s, step); } else { OthersAreUntouched(s, step, id); }
    }
  }

  lemma OwnAccountStaysOk(s: State, step: Step)
    requires AccountOk(s, step.id)
    ensures AccountOk(Next(s, step), step.id)
  {}

  lemma OthersAreUntouched(s: State, step: Step, id: RequestId)
    requires id != step.id
    ensures var after := Next(s, step);
      && (id in after.requests <==> id in s.requests) && (id in s.requests ==> after.requests[id] == s.requests[id])
      && (id in after.outcomes <==> id in s.outcomes) && (id in s.outcomes ==> after.outcomes[id] == s.outcomes[id])
      && after.accounted[id] == s.accounted[id]
  {}

  /**
   * Whatever is admitted, decided, cancelled, refused or delayed, in any order, at most sixteen requests are
   * admitted and two workers run, permits are conserved, and the limiter has been asked exactly once for
   * every decided verification that is past it, and for nothing else.
   */
  lemma {:induction false} AdmissionIsBounded(steps: seq<Step>)
    ensures var s := Run(Next, INITIAL, steps);
      && |Holders(s)| <= MAX_ADMITTED_LOGINS && |Workers(s)| <= MAX_PASSWORD_WORKERS
      && Invariant(s)
  {
    if steps != [] {
      AdmissionIsBounded(steps[..|steps| - 1]);
      StepKeepsInvariant(Run(Next, INITIAL, steps[..|steps| - 1]), steps[|steps| - 1]);
    }
  }

  // ---------- Work whose caller is gone ----------

  /** A step that only the blocking job of the request takes. */
  predicate OfJob(step: Step, id: RequestId) {
    step.id == id && (step.Decide? || step.Account? || step.Return?)
  }

  /** Steps of anybody else, cancellations of the same request included. */
  predicate Elsewhere(steps: seq<Step>, id: RequestId) {
    forall step <- steps :: !OfJob(step, id)
  }

  /** A worker stays where it is until its own next step; a cancellation only makes it unattended. */
  lemma {:induction false} WorkGoesOn(s: State, steps: seq<Step>, id: RequestId)
    requires id in s.requests && s.requests[id].Working? && Elsewhere(steps, id)
    ensures var after := Run(Next, s, steps);
      && id in after.requests
      && after.requests[id]
         == s.requests[id].(callerWaits := s.requests[id].callerWaits && Cancel(id) !in steps)
      && (id in s.outcomes ==> id in after.outcomes && after.outcomes[id] == s.outcomes[id])
      && after.accounted[id] == s.accounted[id]
  {
    if steps != [] {
      var front, last := steps[..|steps| - 1], steps[|steps| - 1];
      assert forall step :: step in steps <==> step in front || step == last by { assert steps == front + [last]; }
      WorkGoesOn(s, front, id);
      WorkWaits(Run(Next, s, front), last, id);
    }
  }

  lemma WorkWaits(s: State, step: Step, id: RequestId)
    requires id in s.requests && s.requests[id].Working? && !OfJob(step, id)
    ensures var after := Next(s, step);
      && id in after.requests
      && after.requests[id] == s.requests[id].(callerWaits := s.requests[id].callerWaits && step != Cancel(id))
      && (id in s.outcomes ==> id in after.outcomes && after.outcomes[id] == s.outcomes[id])
      && after.accounted[id] == s.accounted[id]
  {
    if step.id != id { OthersAreUntouched(s, step, id); }
  }

  /**
   * A verification that has begun to run, with whatever happens between its own three calls and whenever
   * its caller goes: once it returns it is accounted for exactly once, holds no worker, and if the caller
   * was gone it holds no admission either.
   */
  lemma CancelledWorkIsAccounted(
      s: State, running: seq<Step>, decided: seq<Step>, completed: seq<Step>, id: RequestId,
      accepted: bool, refused: bool, slow: bool)
    requires Invariant(s) && id in s.requests && s.requests[id].Working?
    requires s.requests[id].job.Verify? && s.requests[id].progress.Running?
    requires Elsewhere(running, id) && Elsewhere(decided, id) && Elsewhere(completed, id)
    ensures var after := Run(Next, s, running + [Decide(id, Decided(accepted))] + decided + [Account(id, refused, slow)]
                                      + completed + [Return(id)]);
      && after.accounted[id] == 1 && id in after.outcomes && after.outcomes[id] == Decided(accepted)
      && id !in Workers(after)
      && (id in after.requests <==> s.requests[id].callerWaits && Cancel(id) !in running + decided + completed)
      && (id in after.requests ==> after.requests[id] == Returned(slow && !refused))
  {
    assert AccountOk(s, id);
    var a := DecidedAfter(s, running, id, accepted);
    var b := AccountedAfter(a, decided, id, refused, slow);
    var c := ReturnedAfter(b, completed, id);
    StagesFollow(s, running, decided, completed, Decide(id, Decided(accepted)), Account(id, refused, slow), Return(id));
  }

  lemma DecidedAfter(s: State, steps: seq<Step>, id: RequestId, accepted: bool) returns (after: State)
    requires id in s.requests && s.requests[id].Working? && Elsewhere(steps, id)
    requires s.requests[id].job.Verify? && s.requests[id].progress.Running?
    ensures after == Next(Run(Next, s, steps), Decide(id, Decided(accepted)))
    ensures id in after.requests
    ensures after.requests[id] == Working(Verify, Verdict, s.requests[id].callerWaits && Cancel(id) !in steps)
    ensures id in after.outcomes && after.outcomes[id] == Decided(accepted) && after.accounted[id] == s.accounted[id]
  {
    WorkGoesOn(s, steps, id);
    after := Next(Run(Next, s, steps), Decide(id, Decided(accepted)));
  }

  lemma AccountedAfter(s: State, steps: seq<Step>, id: RequestId, refused: bool, slow: bool) returns (after: State)
    requires id in s.requests && s.requests[id].Working? && Elsewhere(steps, id) && s.requests[id].progress.Verdict?
    ensures after == Next(Run(Next, s, steps), Account(id, refused, slow))
    ensures id in after.requests
    ensures after.requests[id]
         == Working(s.requests[id].job, Completed(slow && !refused), s.requests[id].callerWaits && Cancel(id) !in steps)
    ensures id in s.outcomes ==> id in after.outcomes && after.outcomes[id] == s.outcomes[id]
    ensures after.accounted[id] == s.accounted[id] + 1
  {
    WorkGoesOn(s, steps, id);
    after := Next(Run(Next, s, steps), Account(id, refused, slow));
  }

  lemma ReturnedAfter(s: State, steps: seq<Step>, id: RequestId) returns (after: State)
    requires id in s.requests && s.requests[id].Working? && Elsewhere(steps, id) && s.requests[id].progress.Completed?
    ensures after == Next(Run(Next, s, steps), Return(id))
    ensures id !in Workers(after)
    ensures id in after.requests <==> s.requests[id].callerWaits && Cancel(id) !in steps
    ensures id in after.requests ==> after.requests[id] == Returned(s.requests[id].progress.delayed)
    ensures id in s.outcomes ==> id in after.outcomes && after.outcomes[id] == s.outcomes[id]
    ensures after.accounted[id] == s.accounted[id]
  {
    WorkGoesOn(s, steps, id);
    after := Next(Run(Next, s, steps), Return(id));
  }

  lemma StagesFollow(s: State, first: seq<Step>, second: seq<Step>, third: seq<Step>, x: Step, y: Step, z: Step)
    ensures Run(Next, s, first + [x] + second + [y] + third + [z])
         == Next(Run(Next, Next(Run(Next, Next(Run(Next, s, first), x), second), y), third), z)
  {
    RunAppend(Next, s, first, x);
    RunConcat(Next, s, first + [x], second);
    RunAppend(Next, s, first + [x] + second, y);
    RunConcat(Next, s, first + [x] + second + [y], third);
    RunAppend(Next, s, first + [x] + second + [y] + third, z);
  }

  /** What has been accounted for once is never accounted for again, however the run goes on. */
  lemma {:induction false} AccountingIsFinal(s: State, steps: seq<Step>, id: RequestId)
    requires Invariant(s) && PastLimiter(s, id)
    ensures PastLimiter(Run(Next, s, steps), id) && Run(Next, s, steps).accounted[id] == 1
    ensures Invariant(Run(Next, s, steps)) && Run(Next, s, steps).outcomes[id] == s.outcomes[id]
  {
    assert AccountOk(s, id);
    if steps != [] {
      var front, last := steps[..|steps| - 1], steps[|steps| - 1];
      AccountingIsFinal(s, front, id);
      StepKeepsInvariant(Run(Next, s, front), last);
      assert AccountOk(Run(Next, s, front), id) && AccountOk(Run(Next, s, steps), id);
      DecisionsAreKept(Run(Next, s, front), last, id);
    }
  }

  lemma DecisionsAreKept(s: State, step: Step, id: RequestId)
    requires AccountOk(s, id) && PastLimiter(s, id)
    ensures PastLimiter(Next(s, step), id) && Next(s, step).outcomes[id] == s.outcomes[id]
  {
    if step.id != id { OthersAreUntouched(s, step, id); }
  }
}
