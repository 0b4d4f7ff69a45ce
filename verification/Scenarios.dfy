/**
 * Runs that show what is possible: an undisturbed publication, two jobs under one staging name, a swap that
 * cannot be undone, and a sweep that deletes a site which is no longer due.
 */
module Scenarios {
  import opened Histories
  import opened Invariants
  import opened Machine
  import opened Names
  import opened NewSites
  import opened Progress
  import opened Protocol
  import opened Runs
  import opened Safety
  import opened SiteSettings
  import opened Trees
  import opened Wrappers

  lemma CallsConcat(id: JobId, a: seq<Choice>, b: seq<Choice>)
    ensures Calls(id, a + b) == Calls(id, a) + Calls(id, b)
  {}

  lemma OneMoreCall(s: State, id: JobId, choices: seq<Choice>, next: Choice)
    ensures Run(Next, s, Calls(id, choices + [next])) == Step(Run(Next, s, Calls(id, choices)), id, next)
  {
    assert Calls(id, choices + [next]) == Calls(id, choices) + [Act(id, next)];
    RunAppend(Next, s, Calls(id, choices), Act(id, next));
  }

  function Repeated(n: nat): seq<Choice> {
    seq(n, _ => Proceed)
  }

  // ---------- Staging ----------

  function Own(name: string): Ownership {
    Ownership(name, false, None, false)
  }

  /** A job that has staged a tree under a name, in an otherwise unchanged store. */
  function Staging(s: State, id: JobId, task: Task, pc: Pc, name: string, tree: Tree): State {
    s.(tmp := s.tmp[name := tree], jobs := s.jobs[id := Job(task, pc, Own(name))])
  }

  /** The calls of staging, up to waiting for the lock. */
  function StagingCalls(task: Task, name: string): seq<Choice>
    requires Stages(task)
  {
    [Pick(name)] + Repeated(|task.input.files|) + [Proceed]
  }

  /** A new job with an unused staging name stages its whole input. */
  lemma StagingSucceeds(s: State, id: JobId, task: Task, name: string)
    requires s.phase.Serving? && id !in s.jobs && Stages(task) && ValidTask(task)
    requires ValidSlug(name) && name !in s.tmp && WriteAll(task.input.files).Some?
    ensures Run(Next, Started(s, id, task), Calls(id, StagingCalls(task, name)))
         == Staging(s, id, task, Waiting, name, WriteAll(task.input.files).value)
  {
    var started, files := Started(s, id, task), task.input.files;
    FilesAreWritten(s, id, task, name, |files|);
    assert files[..|files|] == files;
    OneMoreCall(started, id, [Pick(name)] + Repeated(|files|), Proceed);
    StagingEnds(s, id, task, name, WriteAll(files).value);
  }

  lemma StagingEnds(s: State, id: JobId, task: Task, name: string, tree: Tree)
    requires Stages(task)
    ensures Step(Staging(s, id, task, Writing(|task.input.files|), name, tree), id, Proceed)
         == Staging(s, id, task, Waiting, name, tree)
  {
    var before := Staging(s, id, task, Writing(|task.input.files|), name, tree);
    assert before.jobs[id := Job(task, Waiting, Own(name))] == s.jobs[id := Job(task, Waiting, Own(name))];
  }

  lemma {:induction false} FilesAreWritten(s: State, id: JobId, task: Task, name: string, count: nat)
    requires s.phase.Serving? && id !in s.jobs && Stages(task) && ValidTask(task)
    requires ValidSlug(name) && name !in s.tmp && count <= |task.input.files| && WriteAll(task.input.files).Some?
    ensures WriteAll(task.input.files[..count]).Some?
    ensures Run(Next, Started(s, id, task), Calls(id, [Pick(name)] + Repeated(count)))
         == Staging(s, id, task, Writing(count), name, WriteAll(task.input.files[..count]).value)
  {
    PrefixIsWritten(task.input.files, count);
    if count == 0 {
      NameIsPicked(s, id, task, name);
    } else {
      FilesAreWritten(s, id, task, name, count - 1);
      OneMoreFile(Started(s, id, task), s, id, task, name, count - 1);
    }
  }

  lemma NameIsPicked(s: State, id: JobId, task: Task, name: string)
    requires s.phase.Serving? && id !in s.jobs && Stages(task) && ValidTask(task) && ValidSlug(name) && name !in s.tmp
    ensures Run(Next, Started(s, id, task), Calls(id, [Pick(name)] + Repeated(0)))
         == Staging(s, id, task, Writing(0), name, EMPTY_DIRECTORY)
  {
    var started := Started(s, id, task);
    CreatesStaging(started, id, name);
    assert Calls(id, [Pick(name)] + Repeated(0)) == Calls(id, []) + [Act(id, Pick(name))];
    RunAppend(Next, started, Calls(id, []), Act(id, Pick(name)));
    assert started.jobs[id := NewStaging(started.jobs[id], name)] == s.jobs[id := Job(task, Writing(0), Own(name))];
  }

  lemma OneMoreFile(started: State, s: State, id: JobId, task: Task, name: string, next: nat)
    requires Stages(task) && next < |task.input.files|
    requires WriteAll(task.input.files[..next]).Some? && WriteAll(task.input.files[..next + 1]).Some?
    requires Run(Next, started, Calls(id, [Pick(name)] + Repeated(next)))
          == Staging(s, id, task, Writing(next), name, WriteAll(task.input.files[..next]).value)
    ensures Run(Next, started, Calls(id, [Pick(name)] + Repeated(next + 1)))
         == Staging(s, id, task, Writing(next + 1), name, WriteAll(task.input.files[..next + 1]).value)
  {
    assert [Pick(name)] + Repeated(next + 1) == ([Pick(name)] + Repeated(next)) + [Proceed];
    OneMoreCall(started, id, [Pick(name)] + Repeated(next), Proceed);
    OneFileIsWritten(s, id, task, name, next);
  }

  lemma {:induction false} PrefixIsWritten(files: seq<SiteFile>, count: nat)
    requires WriteAll(files).Some? && count <= |files|
    ensures WriteAll(files[..count]).Some?
    decreases |files|
  {
    if count == |files| {
      assert files[..count] == files;
    } else {
      PrefixIsWritten(files[..|files| - 1], count);
      assert files[..|files| - 1][..count] == files[..count];
    }
  }

  lemma OneFileIsWritten(s: State, id: JobId, task: Task, name: string, next: nat)
    requires Stages(task) && next < |task.input.files|
    requires WriteAll(task.input.files[..next]).Some? && WriteAll(task.input.files[..next + 1]).Some?
    ensures Step(Staging(s, id, task, Writing(next), name, WriteAll(task.input.files[..next]).value), id, Proceed)
         == Staging(s, id, task, Writing(next + 1), name, WriteAll(task.input.files[..next + 1]).value)
  {
    var files := task.input.files;
    assert files[..next + 1][..next] == files[..next];
    WriteMoves(s, id, task, name, next, WriteAll(files[..next]).value, WriteAll(files[..next + 1]).value);
  }

  lemma WriteMoves(s: State, id: JobId, task: Task, name: string, next: nat, before: Tree, after: Tree)
    requires Stages(task) && next < |task.input.files| && WriteOne(before, task.input.files[next]) == Some(after)
    ensures Step(Staging(s, id, task, Writing(next), name, before), id, Proceed)
         == Staging(s, id, task, Writing(next + 1), name, after)
  {
    assert s.tmp[name := before][name := after] == s.tmp[name := after];
  }

  // ---------- An undisturbed publication ----------

  /** A job under the lock, in an otherwise unchanged store. */
  function Holding(s: State, id: JobId, job: Job): State {
    s.(holder := Some(id), jobs := s.jobs[id := job])
  }

  /** Up to the uncommitted insertion; reservation, installation and commit; cleanup and release. */
  function LockCalls(slug: string, now: int): seq<Choice> {
    [Proceed, At(now), Pick(slug), Proceed]
  }

  function CommitCalls(): seq<Choice> {
    [Proceed, Proceed, Proceed]
  }

  function CleanupCalls(): seq<Choice> {
    [Proceed, Proceed, Proceed]
  }

  /** The calls of a publication from waiting for the lock to giving it back. */
  function PublishingCalls(slug: string, now: int): seq<Choice> {
    LockCalls(slug, now) + (CommitCalls() + CleanupCalls())
  }

  /** The store with one more site. */
  function WithSite(s: State, slug: string, row: Row, tree: Tree): State {
    s.(rows := s.rows[slug := row], sites := s.sites[slug := tree], stale := s.stale - {slug})
  }

  /** Everything a publication needs besides its input: unused names and a free lock. */
  predicate Undisputed(s: State, id: JobId, name: string, slug: string) {
    && s.phase.Serving? && s.holder.None? && id !in s.jobs && ValidSlug(name) && ValidSlug(slug)
    && name !in s.tmp && slug !in s.rows && slug !in s.sites
  }

  /**
   * Every accepted request whose names can be staged is published when nobody disturbs it: the store then
   * differs from the one before in exactly the new row and the new directory.
   */
  lemma UndisturbedPublicationSucceeds(s: State, id: JobId, input: NewSite, name: string, slug: string, now: int)
    requires Undisputed(s, id, name, slug) && ValidTask(Publish(input)) && WriteAll(input.files).Some?
    requires input.slug.Some? ==> input.slug.value == slug
    ensures Run(Next, Started(s, id, Publish(input)), Calls(id, StagingCalls(Publish(input), name) + PublishingCalls(slug, now)))
         == WithSite(s, slug, NewRow(input, now), WriteAll(input.files).value)
  {
    var task, tree := Publish(input), WriteAll(input.files).value;
    StagingSucceeds(s, id, task, name);
    var staged := Staging(s, id, task, Waiting, name, tree);
    CallsConcat(id, StagingCalls(task, name), PublishingCalls(slug, now));
    RunConcat(Next, Started(s, id, task), Calls(id, StagingCalls(task, name)), Calls(id, PublishingCalls(slug, now)));
    PublicationRuns(s, id, input, name, slug, now, tree);
  }

  lemma PublicationRuns(s: State, id: JobId, input: NewSite, name: string, slug: string, now: int, tree: Tree)
    requires Undisputed(s, id, name, slug) && (input.slug.Some? ==> input.slug.value == slug)
    ensures Run(Next, Staging(s, id, Publish(input), Waiting, name, tree), Calls(id, PublishingCalls(slug, now)))
         == WithSite(s, slug, NewRow(input, now), tree)
  {
    var staged := Staging(s, id, Publish(input), Waiting, name, tree);
    var reserving := Holding(staged, id, Job(Publish(input), Reserving(now, 0, slug), Own(name)));
    LockIsTaken(staged, id, input, name, slug, now);
    var committed := Holding(WithSite(s, slug, NewRow(input, now), tree), id,
                             Job(Publish(input), Unreserving, Ownership(name, true, Some(slug), true)));
    SiteIsCommitted(s, id, input, name, slug, now, tree);
    LockIsGivenBack(WithSite(s, slug, NewRow(input, now), tree), id, input, name, slug);
    var done := WithSite(s, slug, NewRow(input, now), tree);
    CallsInThree(staged, id, LockCalls(slug, now), CommitCalls(), CleanupCalls(), reserving, committed, done);
  }

  lemma CallsInThree(s: State, id: JobId, a: seq<Choice>, b: seq<Choice>, c: seq<Choice>, s1: State, s2: State, s3: State)
    requires Run(Next, s, Calls(id, a)) == s1 && Run(Next, s1, Calls(id, b)) == s2 && Run(Next, s2, Calls(id, c)) == s3
    ensures Run(Next, s, Calls(id, a + (b + c))) == s3
  {
    CallsConcat(id, a, b + c);
    CallsConcat(id, b, c);
    RunConcat(Next, s, Calls(id, a), Calls(id, b + c));
    RunConcat(Next, s1, Calls(id, b), Calls(id, c));
  }

  /** Four calls, one after the other. */
  lemma FourCalls(s: State, id: JobId, a: Choice, b: Choice, c: Choice, d: Choice)
    ensures Run(Next, s, Calls(id, [a, b, c, d])) == Step(Step(Step(Step(s, id, a), id, b), id, c), id, d)
  {
    ThreeCalls(s, id, a, b, c);
    assert [a, b, c, d] == [a, b, c] + [d];
    OneMoreCall(s, id, [a, b, c], d);
  }

  lemma ThreeCalls(s: State, id: JobId, a: Choice, b: Choice, c: Choice)
    ensures Run(Next, s, Calls(id, [a, b, c])) == Step(Step(Step(s, id, a), id, b), id, c)
  {
    assert [a] == [] + [a] && [a, b] == [a] + [b] && [a, b, c] == [a, b] + [c];
    assert Run(Next, s, Calls(id, [])) == s;
    OneMoreCall(s, id, [], a);
    OneMoreCall(s, id, [a], b);
    OneMoreCall(s, id, [a, b], c);
  }

  lemma LockIsTaken(staged: State, id: JobId, input: NewSite, name: string, slug: string, now: int)
    requires id in staged.jobs && staged.jobs[id] == Job(Publish(input), Waiting, Own(name)) && staged.holder.None?
    requires ValidSlug(slug) && (input.slug.Some? ==> input.slug.value == slug) && slug !in staged.rows
    ensures Run(Next, staged, Calls(id, LockCalls(slug, now)))
         == Holding(staged, id, Job(Publish(input), Reserving(now, 0, slug), Own(name)))
  {
    FourCalls(staged, id, Proceed, At(now), Pick(slug), Proceed);
    HeldMoves(staged, id, input, name, slug, now);
    SlugIsChosen(staged, id, input, name, slug, now);
    RowIsInserted(staged, id, input, name, slug, now);
  }

  lemma HeldMoves(staged: State, id: JobId, input: NewSite, name: string, slug: string, now: int)
    requires id in staged.jobs && staged.jobs[id] == Job(Publish(input), Waiting, Own(name)) && staged.holder.None?
    requires ValidSlug(slug) && (input.slug.Some? ==> input.slug.value == slug) && slug !in staged.rows
    ensures Step(staged, id, Proceed) == Holding(staged, id, Job(Publish(input), Dating, Own(name)))
    ensures Step(Holding(staged, id, Job(Publish(input), Dating, Own(name))), id, At(now))
         == Holding(staged, id, Job(Publish(input), Choosing(now, 0), Own(name)))
  {}

  lemma SlugIsChosen(staged: State, id: JobId, input: NewSite, name: string, slug: string, now: int)
    requires ValidSlug(slug) && (input.slug.Some? ==> input.slug.value == slug)
    ensures Step(Holding(staged, id, Job(Publish(input), Choosing(now, 0), Own(name))), id, Pick(slug))
         == Holding(staged, id, Job(Publish(input), Inserting(now, 0, slug), Own(name)))
  {}

  lemma RowIsInserted(staged: State, id: JobId, input: NewSite, name: string, slug: string, now: int)
    requires slug !in staged.rows
    ensures Step(Holding(staged, id, Job(Publish(input), Inserting(now, 0, slug), Own(name))), id, Proceed)
         == Holding(staged, id, Job(Publish(input), Reserving(now, 0, slug), Own(name)))
  {}

  /** A job under the lock, with the two directories it is changing. */
  function Held(s: State, id: JobId, pc: Pc, input: NewSite, content: Ownership,
                tmp: map<string, Tree>, sites: map<string, Tree>): State
  {
    s.(holder := Some(id), jobs := s.jobs[id := Job(Publish(input), pc, content)], tmp := tmp, sites := sites)
  }

  lemma SiteIsCommitted(s: State, id: JobId, input: NewSite, name: string, slug: string, now: int, tree: Tree)
    requires Undisputed(s, id, name, slug)
    ensures Run(Next, Holding(Staging(s, id, Publish(input), Waiting, name, tree), id,
                              Job(Publish(input), Reserving(now, 0, slug), Own(name))),
                Calls(id, CommitCalls()))
         == Holding(WithSite(s, slug, NewRow(input, now), tree), id,
                    Job(Publish(input), Unreserving, Ownership(name, true, Some(slug), true)))
  {
    var reserving := Holding(Staging(s, id, Publish(input), Waiting, name, tree), id,
                             Job(Publish(input), Reserving(now, 0, slug), Own(name)));
    ThreeCalls(reserving, id, Proceed, Proceed, Proceed);
    ReservationRuns(s, id, input, name, slug, now, tree);
    InstallationRuns(s, id, input, name, slug, now, tree);
    CommitRuns(s, id, input, name, slug, now, tree);
  }

  lemma ReservationRuns(s: State, id: JobId, input: NewSite, name: string, slug: string, now: int, tree: Tree)
    requires slug !in s.sites
    ensures Step(Holding(Staging(s, id, Publish(input), Waiting, name, tree), id,
                         Job(Publish(input), Reserving(now, 0, slug), Own(name))), id, Proceed)
         == Held(s, id, Installing(now, slug), input, Ownership(name, false, Some(slug), false),
                 s.tmp[name := tree], s.sites[slug := EMPTY_DIRECTORY])
  {
    var reserving := Holding(Staging(s, id, Publish(input), Waiting, name, tree), id,
                             Job(Publish(input), Reserving(now, 0, slug), Own(name)));
    assert reserving.jobs == s.jobs[id := Job(Publish(input), Reserving(now, 0, slug), Own(name))];
  }

  lemma InstallationRuns(s: State, id: JobId, input: NewSite, name: string, slug: string, now: int, tree: Tree)
    requires name !in s.tmp
    ensures Step(Held(s, id, Installing(now, slug), input, Ownership(name, false, Some(slug), false),
                      s.tmp[name := tree], s.sites[slug := EMPTY_DIRECTORY]), id, Proceed)
         == Held(s, id, Committing(now, slug), input, Ownership(name, true, Some(slug), false), s.tmp, s.sites[slug := tree])
  {
    StagingIsInstalled(s, id, input, name, slug, now, s.tmp[name := tree], s.sites[slug := EMPTY_DIRECTORY]);
    assert s.tmp[name := tree] - {name} == s.tmp;
    assert s.sites[slug := EMPTY_DIRECTORY][slug := tree] == s.sites[slug := tree];
  }

  lemma StagingIsInstalled(s: State, id: JobId, input: NewSite, name: string, slug: string, now: int,
                           tmp: map<string, Tree>, sites: map<string, Tree>)
    requires name in tmp && FreeFor(sites, slug)
    ensures Step(Held(s, id, Installing(now, slug), input, Ownership(name, false, Some(slug), false), tmp, sites), id, Proceed)
         == Held(s, id, Committing(now, slug), input, Ownership(name, true, Some(slug), false),
                 tmp - {name}, sites[slug := tmp[name]])
  {}

  lemma CommitRuns(s: State, id: JobId, input: NewSite, name: string, slug: string, now: int, tree: Tree)
    ensures Step(Held(s, id, Committing(now, slug), input, Ownership(name, true, Some(slug), false), s.tmp, s.sites[slug := tree]),
                 id, Proceed)
         == Holding(WithSite(s, slug, NewRow(input, now), tree), id,
                    Job(Publish(input), Unreserving, Ownership(name, true, Some(slug), true)))
  {}

  lemma LockIsGivenBack(s: State, id: JobId, input: NewSite, name: string, slug: string)
    requires id !in s.jobs && s.holder.None?
    ensures Run(Next, Holding(s, id, Job(Publish(input), Unreserving, Ownership(name, true, Some(slug), true))),
                Calls(id, CleanupCalls())) == s
  {
    ThreeCalls(Holding(s, id, Job(Publish(input), Unreserving, Ownership(name, true, Some(slug), true))),
               id, Proceed, Proceed, Proceed);
    CleanupRuns(s, id, Publish(input), Ownership(name, true, Some(slug), true));
    JobEnds(s, id, Job(Publish(input), Releasing, Ownership(name, true, Some(slug), true)));
  }

  lemma CleanupRuns(s: State, id: JobId, task: Task, content: Ownership)
    requires Stages(task) && content.stagingRemoved
    ensures Step(Holding(s, id, Job(task, Unreserving, content)), id, Proceed) == Holding(s, id, Job(task, Unstaging, content))
    ensures Step(Holding(s, id, Job(task, Unstaging, content)), id, Proceed) == Holding(s, id, Job(task, Releasing, content))
  {
    NothingIsReserved(s, id, task, content);
    NothingIsStaged(s, id, task, content);
  }

  lemma NothingIsStaged(s: State, id: JobId, task: Task, content: Ownership)
    requires Stages(task) && content.stagingRemoved
    ensures Step(Holding(s, id, Job(task, Unstaging, content)), id, Proceed) == Holding(s, id, Job(task, Releasing, content))
  {}

  lemma NothingIsReserved(s: State, id: JobId, task: Task, content: Ownership)
    requires Stages(task) && content.stagingRemoved
    ensures Step(Holding(s, id, Job(task, Unreserving, content)), id, Proceed) == Holding(s, id, Job(task, Unstaging, content))
  {}

  lemma JobEnds(s: State, id: JobId, job: Job)
    requires id !in s.jobs && s.holder.None? && job.pc.Releasing?
    ensures Step(Holding(s, id, job), id, Proceed) == s
  {
    assert s.jobs[id := job] - {id} == s.jobs;
  }

  // ---------- Runs in which one job works at a time ----------

  /** A job that is alone never draws a name that another one awaits. */
  lemma LoneJobIsFresh(s: State, id: JobId, choice: Choice)
    requires s.jobs.Keys <= {id}
    ensures FreshName(s, Act(id, choice)) && Step(s, id, choice).jobs.Keys <= {id}
  {
    forall other | other in s.jobs ensures other == id {}
  }

  lemma {:induction false} LoneRunIsFresh(first: seq<Event>, id: JobId, choices: seq<Choice>)
    requires FreshRun(first) && Reached(first).jobs.Keys <= {id}
    ensures FreshRun(first + Calls(id, choices)) && Reached(first + Calls(id, choices)).jobs.Keys <= {id}
  {
    if choices == [] {
      assert first + Calls(id, choices) == first;
    } else {
      var front, last := choices[..|choices| - 1], choices[|choices| - 1];
      LoneRunIsFresh(first, id, front);
      assert first + Calls(id, choices) == (first + Calls(id, front)) + [Act(id, last)];
      LoneJobIsFresh(Reached(first + Calls(id, front)), id, last);
      FreshRunAppend(first + Calls(id, front), Act(id, last));
      OneEvent(first + Calls(id, front), Act(id, last));
    }
  }

  /** A job that starts in an empty house is alone. */
  lemma LoneStart(first: seq<Event>, id: JobId, task: Task)
    requires FreshRun(first) && Reached(first).jobs == map[]
    ensures FreshRun(first + [Start(id, task)]) && Reached(first + [Start(id, task)]).jobs.Keys <= {id}
  {
    FreshRunAppend(first, Start(id, task));
    OneEvent(first, Start(id, task));
  }

  // ---------- Two jobs under one staging name ----------

  /** A site is published. */
  function PublishRun(input: NewSite, slug: string, name: string): seq<Event> {
    [Start(0, Publish(input))] + Calls(0, StagingCalls(Publish(input), name) + PublishingCalls(slug, 0))
  }

  /** A replacement stages its content, takes the lock, finds the row and reads the clock. */
  function ParkingRun(first: seq<Event>, id: JobId, input: NewSite, slug: string, name: string): seq<Event> {
    first + [Start(id, Replace(slug, input))] + Calls(id, StagingCalls(Replace(slug, input), name))
    + Calls(id, [Proceed, Proceed, At(0)])
  }

  /** A site is published, and a replacement of it swaps its content in but has not recorded it. */
  function SwapRun(input: NewSite, slug: string, name: string): seq<Event> {
    ParkingRun(PublishRun(input, slug, name), 1, input, slug, name) + Calls(1, [Proceed, Proceed])
  }

  /** Then a second publication draws the same staging name, and the replacement is refused and undone. */
  function CollisionRun(input: NewSite, slug: string, name: string): seq<Event> {
    SwapRun(input, slug, name) + [Start(2, Publish(input)), Act(2, Pick(name)), Act(1, Fail), Act(1, Proceed)]
  }

  /** What the two runs are about: an accepted request that can be staged, and two slugs. */
  predicate Ordinary(input: NewSite, slug: string, name: string) {
    ValidSite(input) && input.slug.None? && WriteAll(input.files).Some? && ValidSlug(slug) && ValidSlug(name)
  }

  lemma Extends(first: seq<Event>, s: State, second: seq<Event>, t: State)
    requires Reached(first) == s && Run(Next, s, second) == t
    ensures Reached(first + second) == t
  {
    RunConcat(Next, EMPTY_STORE, first, second);
  }

  lemma OneEvent(first: seq<Event>, event: Event)
    ensures Reached(first + [event]) == Next(Reached(first), event)
  {
    RunAppend(Next, EMPTY_STORE, first, event);
  }

  /** The store while the replacement waits for its row to be written. */
  function SwappedStore(input: NewSite, slug: string, name: string): State
    requires Ordinary(input, slug, name)
  {
    var tree := WriteAll(input.files).value;
    State(Serving, map[slug := NewRow(input, 0)], map[slug := tree], map[WithExtensionOld(name) := tree], Some(1),
          map[1 := Job(Replace(slug, input), Recording(0), Ownership(name, true, None, false))], {})
  }

  lemma PublishRunPublishes(input: NewSite, slug: string, name: string)
    requires Ordinary(input, slug, name)
    ensures Reached(PublishRun(input, slug, name))
         == WithSite(EMPTY_STORE, slug, NewRow(input, 0), WriteAll(input.files).value)
    ensures FreshRun(PublishRun(input, slug, name))
  {
    var first, calls := [Start(0, Publish(input))], StagingCalls(Publish(input), name) + PublishingCalls(slug, 0);
    assert [] + first == first && FreshRun([]);
    OneEvent([], Start(0, Publish(input)));
    LoneStart([], 0, Publish(input));
    LoneRunIsFresh(first, 0, calls);
    UndisturbedPublicationSucceeds(EMPTY_STORE, 0, input, name, slug, 0);
    Extends(first, Started(EMPTY_STORE, 0, Publish(input)), Calls(0, calls),
            WithSite(EMPTY_STORE, slug, NewRow(input, 0), WriteAll(input.files).value));
  }

  /** A replacement about to swap, alone with a site that exists. */
  function ParkingStore(s: State, id: JobId, input: NewSite, slug: string, name: string): State
    requires WriteAll(input.files).Some?
  {
    Holding(Staging(s, id, Replace(slug, input), Waiting, name, WriteAll(input.files).value), id,
            Job(Replace(slug, input), Parking(0), Own(name)))
  }

  lemma ParkingRunParks(first: seq<Event>, s: State, id: JobId, input: NewSite, slug: string, name: string)
    requires Ordinary(input, slug, name) && FreshRun(first) && Reached(first) == s
    requires s.phase.Serving? && s.holder.None? && s.jobs == map[] && slug in s.rows && name !in s.tmp
    ensures Reached(ParkingRun(first, id, input, slug, name)) == ParkingStore(s, id, input, slug, name)
    ensures FreshRun(ParkingRun(first, id, input, slug, name))
  {
    var tree, task := WriteAll(input.files).value, Replace(slug, input);
    var second := first + [Start(id, task)];
    OneEvent(first, Start(id, task));
    LoneStart(first, id, task);
    StagingSucceeds(s, id, task, name);
    var staged := Staging(s, id, task, Waiting, name, tree);
    Extends(second, Started(s, id, task), Calls(id, StagingCalls(task, name)), staged);
    LoneRunIsFresh(second, id, StagingCalls(task, name));
    var third := second + Calls(id, StagingCalls(task, name));
    ReplacementTakesLock(staged, id, slug, input, name);
    Extends(third, staged, Calls(id, [Proceed, Proceed, At(0)]), ParkingStore(s, id, input, slug, name));
    LoneRunIsFresh(third, id, [Proceed, Proceed, At(0)]);
  }

  lemma SwapRunSwaps(input: NewSite, slug: string, name: string)
    requires Ordinary(input, slug, name)
    ensures Reached(SwapRun(input, slug, name)) == SwappedStore(input, slug, name) && FreshRun(SwapRun(input, slug, name))
  {
    var published := WithSite(EMPTY_STORE, slug, NewRow(input, 0), WriteAll(input.files).value);
    var first := PublishRun(input, slug, name);
    var parking := ParkingStore(published, 1, input, slug, name);
    PublishRunPublishes(input, slug, name);
    ParkingRunParks(first, published, 1, input, slug, name);
    SwapRuns(input, slug, name, parking);
    Extends(ParkingRun(first, 1, input, slug, name), parking, Calls(1, [Proceed, Proceed]), SwappedStore(input, slug, name));
    LoneRunIsFresh(ParkingRun(first, 1, input, slug, name), 1, [Proceed, Proceed]);
  }

  lemma ReplacementTakesLock(staged: State, id: JobId, slug: string, input: NewSite, name: string)
    requires id in staged.jobs && staged.jobs[id] == Job(Replace(slug, input), Waiting, Own(name))
    requires staged.holder.None? && slug in staged.rows
    ensures Run(Next, staged, Calls(id, [Proceed, Proceed, At(0)]))
         == Holding(staged, id, Job(Replace(slug, input), Parking(0), Own(name)))
  {
    ThreeCalls(staged, id, Proceed, Proceed, At(0));
    assert Step(staged, id, Proceed) == Holding(staged, id, Job(Replace(slug, input), Finding, Own(name)));
    RowIsFound(staged, id, slug, input, name);
    ReplacementIsDated(staged, id, slug, input, name);
  }

  lemma RowIsFound(staged: State, id: JobId, slug: string, input: NewSite, name: string)
    requires slug in staged.rows
    ensures Step(Holding(staged, id, Job(Replace(slug, input), Finding, Own(name))), id, Proceed)
         == Holding(staged, id, Job(Replace(slug, input), Dating, Own(name)))
  {}

  lemma ReplacementIsDated(staged: State, id: JobId, slug: string, input: NewSite, name: string)
    ensures Step(Holding(staged, id, Job(Replace(slug, input), Dating, Own(name))), id, At(0))
         == Holding(staged, id, Job(Replace(slug, input), Parking(0), Own(name)))
  {}

  lemma SwapRuns(input: NewSite, slug: string, name: string, parking: State)
    requires Ordinary(input, slug, name)
    requires var tree := WriteAll(input.files).value; var task := Replace(slug, input);
      parking == Holding(Staging(WithSite(EMPTY_STORE, slug, NewRow(input, 0), tree), 1, task, Waiting, name, tree), 1,
                         Job(task, Parking(0), Own(name)))
    ensures Run(Next, parking, Calls(1, [Proceed, Proceed])) == SwappedStore(input, slug, name)
  {
    ParkedNamesAreApart(name, name);
    assert CanSwap(parking, 1);
    ParkingHalfSwaps(parking, 1);
    PromotingFullySwaps(parking, 1, 0);
    assert [] + [Proceed] == [Proceed] && [Proceed, Proceed] == [Proceed] + [Proceed];
    assert Run(Next, parking, Calls(1, [])) == parking;
    OneMoreCall(parking, 1, [], Proceed);
    OneMoreCall(parking, 1, [Proceed], Proceed);
    SwapLeaves(input, slug, name, parking);
  }

  lemma SwapLeaves(input: NewSite, slug: string, name: string, parking: State)
    requires Ordinary(input, slug, name) && WithExtensionOld(name) != name && CanSwap(parking, 1)
    requires var tree := WriteAll(input.files).value; var task := Replace(slug, input);
      parking == Holding(Staging(WithSite(EMPTY_STORE, slug, NewRow(input, 0), tree), 1, task, Waiting, name, tree), 1,
                         Job(task, Parking(0), Own(name)))
    ensures FullySwapped(parking, 1, Recording(0)) == SwappedStore(input, slug, name)
  {
    var swapped, expected := FullySwapped(parking, 1, Recording(0)), SwappedStore(input, slug, name);
    assert swapped.tmp == expected.tmp;
    assert swapped.sites == expected.sites;
    assert swapped.jobs == expected.jobs;
  }

  /**
   * Exclusive creation alone does not isolate staging: in this run of an ordinary request two live jobs
   * own one staging name, and the directory that job 2 has just created, and believes to be empty, holds
   * the whole content of job 1. The name was drawn in the window, and nowhere else.
   */
  lemma TwoJobsShareStaging(input: NewSite, slug: string, name: string)
    requires Ordinary(input, slug, name)
    ensures var s := Reached(CollisionRun(input, slug, name));
      && 1 in s.jobs && 2 in s.jobs && s.jobs[1].content.staging == name == s.jobs[2].content.staging
      && s.jobs[2].pc == Writing(0) && name in s.tmp
      && WriteAll(input.files) == Some(s.tmp[name]) && s.tmp[name] != EMPTY_DIRECTORY
      && !Disjoint(s)
    ensures FreshRun(SwapRun(input, slug, name)) && !FreshRun(CollisionRun(input, slug, name))
  {
    var s := SwappedStore(input, slug, name);
    SwapRunSwaps(input, slug, name);
    var started := Started(s, 2, Publish(input));
    var shared := Step(started, 2, Pick(name));
    var failed := Step(shared, 1, Fail);
    var after := Step(failed, 1, Proceed);
    var run := SwapRun(input, slug, name);
    CollisionEvents(run, input, name);
    CollisionHappens(input, slug, name, started, shared, failed, after);
    NonemptyStaging(input.files);
    assert Reached(CollisionRun(input, slug, name)) == after;
    CollisionIsNotIsolating(CollisionRun(input, slug, name));
  }

  lemma CollisionIsNotIsolating(events: seq<Event>)
    requires !Disjoint(Reached(events))
    ensures !FreshRun(events)
  {
    RunsIsolateExactlyOutsideTheWindow(events);
    assert events[..|events|] == events;
  }

  lemma CollisionEvents(run: seq<Event>, input: NewSite, name: string)
    ensures Reached(run + [Start(2, Publish(input)), Act(2, Pick(name)), Act(1, Fail), Act(1, Proceed)])
         == Step(Step(Step(Started(Reached(run), 2, Publish(input)), 2, Pick(name)), 1, Fail), 1, Proceed)
  {
    var a, b := run + [Start(2, Publish(input))], run + [Start(2, Publish(input))] + [Act(2, Pick(name))];
    OneEvent(run, Start(2, Publish(input)));
    OneEvent(a, Act(2, Pick(name)));
    OneEvent(b, Act(1, Fail));
    OneEvent(b + [Act(1, Fail)], Act(1, Proceed));
    assert run + [Start(2, Publish(input)), Act(2, Pick(name)), Act(1, Fail), Act(1, Proceed)]
        == b + [Act(1, Fail)] + [Act(1, Proceed)];
  }

  lemma CollisionHappens(input: NewSite, slug: string, name: string, started: State, shared: State, failed: State, after: State)
    requires Ordinary(input, slug, name) && started == Started(SwappedStore(input, slug, name), 2, Publish(input))
    requires shared == Step(started, 2, Pick(name)) && failed == Step(shared, 1, Fail) && after == Step(failed, 1, Proceed)
    ensures 1 in after.jobs && 2 in after.jobs && after.jobs[1].content.staging == name == after.jobs[2].content.staging
    ensures after.jobs[2].pc == Writing(0) && name in after.tmp && WriteAll(input.files) == Some(after.tmp[name])
    ensures !Disjoint(after)
  {
    var first := Job(Replace(slug, input), Recording(0), Ownership(name, true, None, false));
    StartsThird(input, slug, name, started);
    CreatesStaging(started, 2, name);
    RefusalMoves(shared, 1, first);
    WithdrawalMoves(failed, 1, first.(pc := Withdrawing));
    SharedNameIsClaimedTwice(after, 1, 2, name);
  }

  lemma StartsThird(input: NewSite, slug: string, name: string, started: State)
    requires Ordinary(input, slug, name) && started == Started(SwappedStore(input, slug, name), 2, Publish(input))
    ensures 1 in started.jobs && started.jobs[1] == SwappedStore(input, slug, name).jobs[1]
    ensures 2 in started.jobs && started.jobs[2] == Job(Publish(input), Opening(0), NO_CONTENT)
    ensures name !in started.tmp && slug in started.sites && WriteAll(input.files) == Some(started.sites[slug])
  {
    ParkedNamesAreApart(name, name);
  }

  lemma RefusalMoves(s: State, id: JobId, job: Job)
    requires id in s.jobs && s.jobs[id] == job && job.task.Replace? && job.pc.Recording?
    ensures Step(s, id, Fail) == s.(jobs := s.jobs[id := job.(pc := Withdrawing)])
  {}

  lemma WithdrawalMoves(s: State, id: JobId, job: Job)
    requires id in s.jobs && s.jobs[id] == job && job.task.Replace? && job.pc.Withdrawing?
    requires job.task.slug in s.sites && FreeFor(s.tmp, job.content.staging)
    ensures Step(s, id, Proceed)
         == s.(tmp := s.tmp[job.content.staging := s.sites[job.task.slug]], sites := s.sites - {job.task.slug},
               jobs := s.jobs[id := job.(pc := Restoring)])
  {}

  lemma SharedNameIsClaimedTwice(s: State, a: JobId, b: JobId, name: string)
    requires a != b && a in s.jobs && b in s.jobs && s.jobs[a].task.Replace? && Stages(s.jobs[b].task)
    requires s.jobs[a].pc.Restoring? && s.jobs[b].pc.Writing? && !s.jobs[b].content.stagingRemoved
    requires s.jobs[a].content.staging == name == s.jobs[b].content.staging
    ensures !Disjoint(s)
  {
    assert name in Claims(s.jobs[a]) && name in Claims(s.jobs[b]);
    assert !(Claims(s.jobs[a]) !! Claims(s.jobs[b]));
  }

  // ---------- A swap that cannot be undone ----------

  /** The replacement is recorded, but the removal of the parked content stops part way. */
  function LeftoverRun(input: NewSite, slug: string, name: string, rest: Tree): seq<Event> {
    SwapRun(input, slug, name) + Calls(1, [Proceed, Leave(rest), Fail]) + Calls(1, [Proceed, Proceed, Proceed])
  }

  /** The store with a site and the given leftover under the parked name. */
  function LeftoverStore(input: NewSite, slug: string, name: string, rest: Tree): State
    requires Ordinary(input, slug, name)
  {
    State(Serving, map[slug := ReplacedRow(NewRow(input, 0), input, 0)], map[slug := WriteAll(input.files).value],
          map[WithExtensionOld(name) := rest], None, map[], {})
  }

  lemma LeftoverRunLeaves(input: NewSite, slug: string, name: string, rest: Tree)
    requires Ordinary(input, slug, name)
    ensures Reached(LeftoverRun(input, slug, name, rest)) == LeftoverStore(input, slug, name, rest)
    ensures FreshRun(LeftoverRun(input, slug, name, rest))
  {
    var task, content := Replace(slug, input), Ownership(name, true, None, false);
    var left := LeftoverStore(input, slug, name, rest);
    var unreserving := Holding(left, 1, Job(task, Unreserving, content));
    SwapRunSwaps(input, slug, name);
    ThreeCalls(SwappedStore(input, slug, name), 1, Proceed, Leave(rest), Fail);
    SwapIsRecorded(input, slug, name);
    ParkedIsLeft(input, slug, name, rest);
    var run, calls := SwapRun(input, slug, name), [Proceed, Leave(rest), Fail];
    Extends(run, SwappedStore(input, slug, name), Calls(1, calls), unreserving);
    LoneRunIsFresh(run, 1, calls);
    ThreeCalls(unreserving, 1, Proceed, Proceed, Proceed);
    CleanupRuns(left, 1, task, content);
    JobEnds(left, 1, Job(task, Releasing, content));
    Extends(run + Calls(1, calls), unreserving, Calls(1, [Proceed, Proceed, Proceed]), left);
    LoneRunIsFresh(run + Calls(1, calls), 1, [Proceed, Proceed, Proceed]);
  }

  lemma SwapIsRecorded(input: NewSite, slug: string, name: string)
    requires Ordinary(input, slug, name)
    ensures var tree := WriteAll(input.files).value;
      Step(SwappedStore(input, slug, name), 1, Proceed)
      == Holding(LeftoverStore(input, slug, name, tree), 1, Job(Replace(slug, input), DroppingParked, Ownership(name, true, None, false)))
  {
    var row, s := NewRow(input, 0), SwappedStore(input, slug, name);
    RecordMoves(s, 1, s.jobs[1]);
    assert map[slug := row][slug := ReplacedRow(row, input, 0)] == map[slug := ReplacedRow(row, input, 0)];
  }

  lemma RecordMoves(s: State, id: JobId, job: Job)
    requires id in s.jobs && s.jobs[id] == job && job.task.Replace? && job.pc.Recording? && job.task.slug in s.rows
    ensures Step(s, id, Proceed)
         == s.(rows := s.rows[job.task.slug := ReplacedRow(s.rows[job.task.slug], job.task.input, job.pc.now)],
               stale := s.stale - {job.task.slug}, jobs := s.jobs[id := job.(pc := DroppingParked)])
  {}

  lemma ParkedIsLeft(input: NewSite, slug: string, name: string, rest: Tree)
    requires Ordinary(input, slug, name)
    ensures var tree := WriteAll(input.files).value; var content := Ownership(name, true, None, false);
      var dropping := Job(Replace(slug, input), DroppingParked, content);
      var left := LeftoverStore(input, slug, name, rest);
      && Step(Holding(LeftoverStore(input, slug, name, tree), 1, dropping), 1, Leave(rest)) == Holding(left, 1, dropping)
      && Step(Holding(left, 1, dropping), 1, Fail) == Holding(left, 1, dropping.(pc := Unreserving))
  {
    var parked, tree := WithExtensionOld(name), WriteAll(input.files).value;
    var dropping := Job(Replace(slug, input), DroppingParked, Ownership(name, true, None, false));
    RemovalStops(Holding(LeftoverStore(input, slug, name, tree), 1, dropping), 1, dropping, rest);
    RemovalFails(Holding(LeftoverStore(input, slug, name, rest), 1, dropping), 1, dropping);
    assert map[parked := tree][parked := rest] == map[parked := rest];
  }

  lemma RemovalStops(s: State, id: JobId, job: Job, rest: Tree)
    requires id in s.jobs && s.jobs[id] == job && job.task.Replace? && job.pc.DroppingParked?
    ensures Step(s, id, Leave(rest)) == s.(tmp := s.tmp[ParkedName(job.content) := rest])
  {
    assert s.jobs[id := job] == s.jobs;
  }

  lemma RemovalFails(s: State, id: JobId, job: Job)
    requires id in s.jobs && s.jobs[id] == job && job.task.Replace? && job.pc.DroppingParked?
    ensures Step(s, id, Fail) == s.(jobs := s.jobs[id := job.(pc := Unreserving)])
  {}

  /**
   * The failing side of the swap's inverse is reached by a run of any ordinary request in which no name is
   * drawn inside the window: the next replacement draws the staging name of the first, parks the served
   * directory over the empty leftover, and undoing its swap does not bring the leftover back.
   */
  lemma SomeSwapCannotBeUndone(input: NewSite, slug: string, name: string)
    requires Ordinary(input, slug, name)
    ensures var run := ParkingRun(LeftoverRun(input, slug, name, EMPTY_DIRECTORY), 3, input, slug, name); var s := Reached(run);
      && FreshRun(run) && 3 in s.jobs && s.jobs[3].pc.Parking? && CanSwap(s, 3)
      && SwappedAndUndone(s, 3) != s.(jobs := s.jobs[3 := s.jobs[3].(pc := Unreserving)])
  {
    var run := ParkingRun(LeftoverRun(input, slug, name, EMPTY_DIRECTORY), 3, input, slug, name);
    var left := LeftoverStore(input, slug, name, EMPTY_DIRECTORY);
    ParkedNamesAreApart(name, name);
    LeftoverRunLeaves(input, slug, name, EMPTY_DIRECTORY);
    ParkingRunParks(LeftoverRun(input, slug, name, EMPTY_DIRECTORY), left, 3, input, slug, name);
    RunKeepsInvariant(run);
    SwapBackUndoesSwap(Reached(run), 3);
    SwapIsPossible(Reached(run), 3);
  }

  // ---------- A replacement that is refused without any fault ----------

  /** The next replacement draws the same staging name and goes its way, with every call succeeding. */
  function RefusedRun(input: NewSite, slug: string, name: string, rest: Tree): seq<Event> {
    ParkingRun(LeftoverRun(input, slug, name, rest), 3, input, slug, name)
    + Calls(3, [Proceed, Proceed, Proceed, Proceed])
  }

  /**
   * A leftover with anything in it refuses the next replacement that draws its staging name: none of that
   * job's calls fails, it finds the row, and it leaves the store exactly as it was.
   */
  lemma LeftoverRefusesReplacement(input: NewSite, slug: string, name: string, rest: Tree)
    requires Ordinary(input, slug, name) && rest != EMPTY_DIRECTORY
    ensures var before, run := LeftoverRun(input, slug, name, rest), RefusedRun(input, slug, name, rest);
      var parking := Reached(ParkingRun(before, 3, input, slug, name));
      && FreshRun(run) && FaultsOf(run[|before|..], 3) == 0
      && slug in parking.rows && Obstructed(parking, 3) && parking.jobs[3].pc.Parking?
      && 3 in Step(parking, 3, Proceed).jobs && Step(parking, 3, Proceed).jobs[3].pc.Unreserving?
      && Reached(run) == Reached(before)
  {
    RefusedRunIsUndone(input, slug, name, rest);
    LeftoverRefusesPark(input, slug, name, rest);
    RefusalIsFaultless(LeftoverRun(input, slug, name, rest), input, slug, name, rest);
  }

  lemma RefusedRunIsUndone(input: NewSite, slug: string, name: string, rest: Tree)
    requires Ordinary(input, slug, name) && rest != EMPTY_DIRECTORY
    ensures var before := LeftoverRun(input, slug, name, rest); var left := LeftoverStore(input, slug, name, rest);
      && Reached(before) == left && Reached(ParkingRun(before, 3, input, slug, name)) == RefusedStore(left, input, slug, name, Parking(0))
      && Reached(RefusedRun(input, slug, name, rest)) == left && FreshRun(RefusedRun(input, slug, name, rest))
  {
    var left := LeftoverStore(input, slug, name, rest);
    var run, calls := ParkingRun(LeftoverRun(input, slug, name, rest), 3, input, slug, name), [Proceed, Proceed, Proceed, Proceed];
    ParkedNamesAreApart(name, name);
    RefusedRunParks(input, slug, name, rest);
    RefusalRuns(input, slug, name, left);
    Extends(run, RefusedStore(left, input, slug, name, Parking(0)), Calls(3, calls), left);
    LoneRunIsFresh(run, 3, calls);
  }

  lemma RefusedRunParks(input: NewSite, slug: string, name: string, rest: Tree)
    requires Ordinary(input, slug, name)
    ensures var before := LeftoverRun(input, slug, name, rest); var left := LeftoverStore(input, slug, name, rest);
      var run := ParkingRun(before, 3, input, slug, name);
      && Reached(before) == left && Reached(run) == RefusedStore(left, input, slug, name, Parking(0))
      && FreshRun(run) && Reached(run).jobs.Keys <= {3} && left.jobs == map[] && left.holder.None? && name !in left.tmp
  {
    var before, left := LeftoverRun(input, slug, name, rest), LeftoverStore(input, slug, name, rest);
    ParkedNamesAreApart(name, name);
    LeftoverRunLeaves(input, slug, name, rest);
    ParkingRunParks(before, left, 3, input, slug, name);
    ParkingStoreIs(left, input, slug, name);
  }

  lemma ParkingStoreIs(left: State, input: NewSite, slug: string, name: string)
    requires WriteAll(input.files).Some?
    ensures ParkingStore(left, 3, input, slug, name) == RefusedStore(left, input, slug, name, Parking(0))
  {}

  lemma LeftoverRefusesPark(input: NewSite, slug: string, name: string, rest: Tree)
    requires Ordinary(input, slug, name) && rest != EMPTY_DIRECTORY
    ensures var parking := RefusedStore(LeftoverStore(input, slug, name, rest), input, slug, name, Parking(0));
      && Obstructed(parking, 3)
      && Step(parking, 3, Proceed) == RefusedStore(LeftoverStore(input, slug, name, rest), input, slug, name, Unreserving)
  {
    ParkedNamesAreApart(name, name);
    RefusalRuns(input, slug, name, LeftoverStore(input, slug, name, rest));
  }

  /** The refused job, wherever it is, with its staging directory beside the leftover. */
  function RefusedStore(left: State, input: NewSite, slug: string, name: string, pc: Pc): State
    requires WriteAll(input.files).Some?
  {
    Holding(left.(tmp := left.tmp[name := WriteAll(input.files).value]), 3, Job(Replace(slug, input), pc, Own(name)))
  }

  lemma RefusalRuns(input: NewSite, slug: string, name: string, left: State)
    requires WriteAll(input.files).Some? && left.jobs == map[] && left.holder.None? && name !in left.tmp
    requires WithExtensionOld(name) in left.tmp && left.tmp[WithExtensionOld(name)] != EMPTY_DIRECTORY
    requires WithExtensionOld(name) != name
    ensures Run(Next, RefusedStore(left, input, slug, name, Parking(0)), Calls(3, [Proceed, Proceed, Proceed, Proceed])) == left
    ensures Step(RefusedStore(left, input, slug, name, Parking(0)), 3, Proceed)
         == RefusedStore(left, input, slug, name, Unreserving)
  {
    FourCalls(RefusedStore(left, input, slug, name, Parking(0)), 3, Proceed, Proceed, Proceed, Proceed);
    var s, job := left.(tmp := left.tmp[name := WriteAll(input.files).value]), Job(Replace(slug, input), Parking(0), Own(name));
    ParkIsRefused(s, 3, job);
    ReservationIsNone(s, 3, job.(pc := Unreserving));
    StagingIsErased(s, 3, job.(pc := Unstaging));
    assert s.tmp - {name} == left.tmp;
    JobEnds(left, 3, job.(pc := Releasing));
  }

  lemma ParkIsRefused(s: State, id: JobId, job: Job)
    requires job.task.Replace? && job.pc.Parking? && Obstructed(Holding(s, id, job), id)
    ensures Step(Holding(s, id, job), id, Proceed) == Holding(s, id, job.(pc := Unreserving))
  {}

  lemma ReservationIsNone(s: State, id: JobId, job: Job)
    requires job.task.Replace? && job.pc.Unreserving? && job.content.installed.None?
    ensures Step(Holding(s, id, job), id, Proceed) == Holding(s, id, job.(pc := Unstaging))
  {}

  lemma StagingIsErased(s: State, id: JobId, job: Job)
    requires job.task.Replace? && job.pc.Unstaging? && !job.content.stagingRemoved
    ensures Step(Holding(s, id, job), id, Proceed)
         == Holding(s.(tmp := s.tmp - {job.content.staging}), id, job.(pc := Releasing))
  {}

  lemma {:induction false} NoFaults(events: seq<Event>, me: JobId)
    requires forall event <- events :: FaultOf(event, me) == 0
    ensures FaultsOf(events, me) == 0
  {
    if events != [] { NoFaults(events[..|events| - 1], me); }
  }

  lemma RefusalIsFaultless(before: seq<Event>, input: NewSite, slug: string, name: string, rest: Tree)
    requires before == LeftoverRun(input, slug, name, rest)
    ensures FaultsOf(RefusedRun(input, slug, name, rest)[|before|..], 3) == 0
  {
    var task := Replace(slug, input);
    var tail := [Start(3, task)] + Calls(3, StagingCalls(task, name)) + Calls(3, [Proceed, Proceed, At(0)])
                + Calls(3, [Proceed, Proceed, Proceed, Proceed]);
    assert RefusedRun(input, slug, name, rest) == before + tail;
    assert forall choice <- StagingCalls(task, name) :: !FaultChoice(choice);
    NoFaults(tail, 3);
  }

  // ---------- A crash in the middle of a swap ----------

  /** A replacement has parked the served directory, and nothing has taken its place. */
  function TornRun(input: NewSite, slug: string, name: string): seq<Event> {
    ParkingRun(PublishRun(input, slug, name), 1, input, slug, name) + Calls(1, [Proceed])
  }

  /** A crash between the two renames loses the site: it is there before, and after no boot and no second crash. */
  lemma CrashInSwapLosesSite(input: NewSite, slug: string, name: string, boot: seq<Event>)
    requires Ordinary(input, slug, name) && Restarts(boot)
    ensures var s := Reached(TornRun(input, slug, name));
      && FreshRun(TornRun(input, slug, name)) && MidSwap(s, slug)
      && SiteAt(s, slug) == Some((NewRow(input, 0), WriteAll(input.files).value))
      && SiteAt(Run(Next, Crashed(s), boot), slug).None?
  {
    var published := WithSite(EMPTY_STORE, slug, NewRow(input, 0), WriteAll(input.files).value);
    var parking := ParkingStore(published, 1, input, slug, name);
    var run := ParkingRun(PublishRun(input, slug, name), 1, input, slug, name);
    ParkedNamesAreApart(name, name);
    PublishRunPublishes(input, slug, name);
    ParkingRunParks(PublishRun(input, slug, name), published, 1, input, slug, name);
    ParkingHalfSwaps(parking, 1);
    OneMoreCall(parking, 1, [], Proceed);
    assert [] + [Proceed] == [Proceed] && Run(Next, parking, Calls(1, [])) == parking;
    Extends(run, parking, Calls(1, [Proceed]), HalfSwapped(parking, 1, Promoting(0), false));
    LoneRunIsFresh(run, 1, [Proceed]);
    ParkedSiteIsTorn(published, parking, input, slug, name);
    RunKeepsInvariant(TornRun(input, slug, name));
    RecoveryKeepsEverySite(Reached(TornRun(input, slug, name)), boot, slug);
  }

  lemma ParkedSiteIsTorn(published: State, parking: State, input: NewSite, slug: string, name: string)
    requires Ordinary(input, slug, name) && CanSwap(parking, 1)
    requires published == WithSite(EMPTY_STORE, slug, NewRow(input, 0), WriteAll(input.files).value)
    requires parking == ParkingStore(published, 1, input, slug, name)
    ensures var s := HalfSwapped(parking, 1, Promoting(0), false);
      && MidSwap(s, slug) && slug !in Torn(s)
      && SiteAt(s, slug) == Some((NewRow(input, 0), WriteAll(input.files).value))
  {}

  // ---------- A success that is reported as an error ----------

  /** A publication up to its commit, and on to its end with a cleanup whose storage check fails. */
  function CommittedRun(input: NewSite, slug: string, name: string): seq<Event> {
    [Start(0, Publish(input))] + Calls(0, StagingCalls(Publish(input), name) + (LockCalls(slug, 0) + CommitCalls()))
  }

  function UntidyRun(input: NewSite, slug: string, name: string): seq<Event> {
    CommittedRun(input, slug, name) + Calls(0, [Fail, Proceed, Proceed])
  }

  /**
   * In this run of any ordinary request no call fails before the cleanup, the cleanup fails, and the site
   * is published all the same.
   */
  lemma UntidyPublicationIsPublished(input: NewSite, slug: string, name: string)
    requires Ordinary(input, slug, name)
    ensures var closing, run := CommittedRun(input, slug, name), UntidyRun(input, slug, name);
      && FreshRun(run) && CleaningUp(Reached(closing), 0)
      && FaultsOf(closing[1..], 0) == 0 && FaultsOf(run[1..], 0) == 1
      && Reached(run) == WithSite(EMPTY_STORE, slug, NewRow(input, 0), WriteAll(input.files).value)
  {
    var published := WithSite(EMPTY_STORE, slug, NewRow(input, 0), WriteAll(input.files).value);
    var content := Ownership(name, true, Some(slug), true);
    var committed := Holding(published, 0, Job(Publish(input), Unreserving, content));
    var closing := CommittedRun(input, slug, name);
    CommittedRunCommits(input, slug, name, committed);
    ThreeCalls(committed, 0, Fail, Proceed, Proceed);
    CleanupIsSkipped(published, 0, Publish(input), content);
    CleanupRuns(published, 0, Publish(input), content);
    JobEnds(published, 0, Job(Publish(input), Releasing, content));
    Extends(closing, committed, Calls(0, [Fail, Proceed, Proceed]), published);
    LoneRunIsFresh(closing, 0, [Fail, Proceed, Proceed]);
    OnlyTheCheckFails(input, slug, name);
  }

  lemma CleanupIsSkipped(s: State, id: JobId, task: Task, content: Ownership)
    requires Stages(task)
    ensures Step(Holding(s, id, Job(task, Unreserving, content)), id, Fail) == Holding(s, id, Job(task, Unstaging, content))
  {}

  lemma CommittedRunCommits(input: NewSite, slug: string, name: string, committed: State)
    requires Ordinary(input, slug, name)
    requires committed == Holding(WithSite(EMPTY_STORE, slug, NewRow(input, 0), WriteAll(input.files).value), 0,
                                  Job(Publish(input), Unreserving, Ownership(name, true, Some(slug), true)))
    ensures Reached(CommittedRun(input, slug, name)) == committed && FreshRun(CommittedRun(input, slug, name))
    ensures Reached(CommittedRun(input, slug, name)).jobs.Keys <= {0}
  {
    var task, tree := Publish(input), WriteAll(input.files).value;
    var started, staged := Started(EMPTY_STORE, 0, task), Staging(EMPTY_STORE, 0, task, Waiting, name, tree);
    var reserving := Holding(staged, 0, Job(task, Reserving(0, 0, slug), Own(name)));
    assert [] + [Start(0, task)] == [Start(0, task)] && FreshRun([]);
    OneEvent([], Start(0, task));
    LoneStart([], 0, task);
    StagingSucceeds(EMPTY_STORE, 0, task, name);
    LockIsTaken(staged, 0, input, name, slug, 0);
    SiteIsCommitted(EMPTY_STORE, 0, input, name, slug, 0, tree);
    CallsInThree(started, 0, StagingCalls(task, name), LockCalls(slug, 0), CommitCalls(), staged, reserving, committed);
    var calls := StagingCalls(task, name) + (LockCalls(slug, 0) + CommitCalls());
    Extends([Start(0, task)], started, Calls(0, calls), committed);
    LoneRunIsFresh([Start(0, task)], 0, calls);
  }

  lemma OnlyTheCheckFails(input: NewSite, slug: string, name: string)
    ensures FaultsOf(CommittedRun(input, slug, name)[1..], 0) == 0
    ensures FaultsOf(UntidyRun(input, slug, name)[1..], 0) == 1
  {
    var calls := StagingCalls(Publish(input), name) + (LockCalls(slug, 0) + CommitCalls());
    var closing := Calls(0, calls);
    assert CommittedRun(input, slug, name)[1..] == closing;
    assert forall choice <- calls :: !FaultChoice(choice);
    NoFaults(closing, 0);
    OneFailureMore(closing, 0);
    assert UntidyRun(input, slug, name)[1..] == closing + [Act(0, Fail)] + [Act(0, Proceed)] + [Act(0, Proceed)];
  }

  lemma OneFailureMore(events: seq<Event>, id: JobId)
    ensures FaultsOf(events + [Act(id, Fail)] + [Act(id, Proceed)] + [Act(id, Proceed)], id) == FaultsOf(events, id) + 1
  {
    OthersAppend(events, Act(id, Fail), id);
    OthersAppend(events + [Act(id, Fail)], Act(id, Proceed), id);
    OthersAppend(events + [Act(id, Fail)] + [Act(id, Proceed)], Act(id, Proceed), id);
  }

  // ---------- A sweep that comes too late ----------

  /** The calls of a save and of a deletion that nobody disturbs, from waiting for the lock on. */
  function SavingCalls(now: int): seq<Choice> {
    [Proceed, Proceed, Proceed] + [At(now), Proceed, Proceed]
  }

  function DeletingCalls(): seq<Choice> {
    [Proceed, Proceed, Proceed] + [Proceed, Proceed]
  }

  /** Settings that open a site and take its expiry away. */
  function Unlimited(input: NewSite): Settings {
    Settings(input.title, input.entry, OpenAccess, Never)
  }

  /** A site is published; its owner, at a time at which it has expired, takes the expiry away; then it is deleted. */
  function ExtendedRun(input: NewSite, slug: string, name: string, now: int): seq<Event> {
    PublishRun(input, slug, name) + [Start(1, Update(slug, Unlimited(input)))] + Calls(1, SavingCalls(now))
  }

  function SweptRun(input: NewSite, slug: string, name: string, now: int): seq<Event> {
    ExtendedRun(input, slug, name, now) + [Start(2, Delete(slug))] + Calls(2, DeletingCalls())
  }

  /**
   * A sweep deletes what had expired when it began, not what is expired when it gets there: at the time of
   * its snapshot the site is due, before its deletion starts the site is due at no time at all, and still
   * the deletion removes it.
   */
  lemma ExtendedSiteIsStillSwept(input: NewSite, slug: string, name: string, now: int)
    requires Ordinary(input, slug, name)
    requires input.expiresIn.Some? && SaturatingAdd(0, input.expiresIn.value) <= now
    ensures var due, saved, swept := Reached(PublishRun(input, slug, name)), Reached(ExtendedRun(input, slug, name, now)),
                                     Reached(SweptRun(input, slug, name, now));
      && slug in due.rows && IsExpired(due.rows[slug], now)
      && slug in saved.rows && (forall later :: !IsExpired(saved.rows[slug], later))
      && slug !in swept.rows && slug !in swept.sites
      && FreshRun(SweptRun(input, slug, name, now))
  {
    var tree, row := WriteAll(input.files).value, NewRow(input, 0);
    var due := WithSite(EMPTY_STORE, slug, row, tree);
    var saved := due.(rows := due.rows[slug := UpdatedRow(row, Unlimited(input), now)]);
    var first, second := PublishRun(input, slug, name), ExtendedRun(input, slug, name, now);
    PublishRunPublishes(input, slug, name);
    EntryIsStaged(input.files, tree, input.entry);
    SaveRuns(due, 1, slug, Unlimited(input), now);
    OneEvent(first, Start(1, Update(slug, Unlimited(input))));
    LoneStart(first, 1, Update(slug, Unlimited(input)));
    Extends(first + [Start(1, Update(slug, Unlimited(input)))], Started(due, 1, Update(slug, Unlimited(input))),
            Calls(1, SavingCalls(now)), saved);
    LoneRunIsFresh(first + [Start(1, Update(slug, Unlimited(input)))], 1, SavingCalls(now));
    DeletedRun(second, saved, 2, slug);
  }

  /** An undisturbed save writes exactly the row. */
  lemma SaveRuns(s: State, id: JobId, slug: string, settings: Settings, now: int)
    requires s.phase.Serving? && s.jobs == map[] && s.holder.None? && ValidTask(Update(slug, settings))
    requires slug in s.rows && !settings.access.KeepAccess? && slug in s.sites && IsFile(s.sites[slug], [settings.entry])
    ensures Run(Next, Started(s, id, Update(slug, settings)), Calls(id, SavingCalls(now)))
         == s.(rows := s.rows[slug := UpdatedRow(s.rows[slug], settings, now)])
  {
    var task := Update(slug, settings);
    var saved := s.(rows := s.rows[slug := UpdatedRow(s.rows[slug], settings, now)]);
    var started, dating := Started(s, id, task), Holding(s, id, Job(task, Dating, NO_CONTENT));
    ThreeCalls(started, id, Proceed, Proceed, Proceed);
    LockIsFree(s, id, task);
    SettingsAreChecked(s, id, slug, settings);
    ThreeCalls(dating, id, At(now), Proceed, Proceed);
    RowIsSaved(s, id, slug, settings, now);
    JobEnds(saved, id, Job(task, Releasing, NO_CONTENT));
    CallsInTwo(started, id, [Proceed, Proceed, Proceed], [At(now), Proceed, Proceed], dating, saved);
  }

  lemma CallsInTwo(s: State, id: JobId, a: seq<Choice>, b: seq<Choice>, s1: State, s2: State)
    requires Run(Next, s, Calls(id, a)) == s1 && Run(Next, s1, Calls(id, b)) == s2
    ensures Run(Next, s, Calls(id, a + b)) == s2
  {
    CallsConcat(id, a, b);
    RunConcat(Next, s, Calls(id, a), Calls(id, b));
  }

  lemma LockIsFree(s: State, id: JobId, task: Task)
    requires s.phase.Serving? && s.jobs == map[] && s.holder.None? && ValidTask(task) && !Stages(task)
    ensures Step(Started(s, id, task), id, Proceed) == Holding(s, id, Job(task, Finding, NO_CONTENT))
  {}

  lemma SettingsAreChecked(s: State, id: JobId, slug: string, settings: Settings)
    requires slug in s.rows && !settings.access.KeepAccess? && slug in s.sites && IsFile(s.sites[slug], [settings.entry])
    ensures var task := Update(slug, settings);
      && Step(Holding(s, id, Job(task, Finding, NO_CONTENT)), id, Proceed) == Holding(s, id, Job(task, Checking, NO_CONTENT))
      && Step(Holding(s, id, Job(task, Checking, NO_CONTENT)), id, Proceed) == Holding(s, id, Job(task, Dating, NO_CONTENT))
  {
    SiteIsFound(s, id, Update(slug, settings), Checking);
    SettingsFit(s, id, slug, settings);
  }

  lemma SiteIsFound(s: State, id: JobId, task: Task, pc: Pc)
    requires (task.Update? && pc.Checking?) || (task.Delete? && pc.DeletingRow?)
    requires Slug(task) in s.rows
    ensures Step(Holding(s, id, Job(task, Finding, NO_CONTENT)), id, Proceed) == Holding(s, id, Job(task, pc, NO_CONTENT))
  {}

  lemma SettingsFit(s: State, id: JobId, slug: string, settings: Settings)
    requires slug in s.rows && !settings.access.KeepAccess? && slug in s.sites && IsFile(s.sites[slug], [settings.entry])
    ensures var task := Update(slug, settings);
      Step(Holding(s, id, Job(task, Checking, NO_CONTENT)), id, Proceed) == Holding(s, id, Job(task, Dating, NO_CONTENT))
  {}

  lemma RowIsSaved(s: State, id: JobId, slug: string, settings: Settings, now: int)
    requires slug in s.rows
    ensures var task := Update(slug, settings); var saved := s.(rows := s.rows[slug := UpdatedRow(s.rows[slug], settings, now)]);
      && Step(Holding(s, id, Job(task, Dating, NO_CONTENT)), id, At(now)) == Holding(s, id, Job(task, Saving(now), NO_CONTENT))
      && Step(Holding(s, id, Job(task, Saving(now), NO_CONTENT)), id, Proceed) == Holding(saved, id, Job(task, Releasing, NO_CONTENT))
  {
    SaveIsDated(s, id, Update(slug, settings), now);
    SaveIsWritten(s, id, slug, settings, now);
  }

  lemma SaveIsDated(s: State, id: JobId, task: Task, now: int)
    requires task.Update?
    ensures Step(Holding(s, id, Job(task, Dating, NO_CONTENT)), id, At(now)) == Holding(s, id, Job(task, Saving(now), NO_CONTENT))
  {}

  lemma SaveIsWritten(s: State, id: JobId, slug: string, settings: Settings, now: int)
    requires slug in s.rows
    ensures var task := Update(slug, settings); var saved := s.(rows := s.rows[slug := UpdatedRow(s.rows[slug], settings, now)]);
      Step(Holding(s, id, Job(task, Saving(now), NO_CONTENT)), id, Proceed) == Holding(saved, id, Job(task, Releasing, NO_CONTENT))
  {}

  function Without(s: State, slug: string): State {
    s.(rows := s.rows - {slug}, sites := s.sites - {slug}, stale := s.stale - {slug})
  }

  /** An undisturbed deletion removes exactly the row and the directory. */
  lemma DeletionRuns(s: State, id: JobId, slug: string)
    requires s.phase.Serving? && s.jobs == map[] && s.holder.None? && ValidSlug(slug) && slug in s.rows
    ensures Run(Next, Started(s, id, Delete(slug)), Calls(id, DeletingCalls())) == Without(s, slug)
  {
    var task := Delete(slug);
    var started, removing := Started(s, id, task),
      Holding(s.(rows := s.rows - {slug}, stale := s.stale - {slug}), id, Job(task, DeletingContent, NO_CONTENT));
    ThreeCalls(started, id, Proceed, Proceed, Proceed);
    LockIsFree(s, id, task);
    RowIsDeleted(s, id, slug);
    TwoCalls(removing, id, Proceed, Proceed);
    ContentIsDeleted(s, id, slug);
    JobEnds(Without(s, slug), id, Job(task, Releasing, NO_CONTENT));
    CallsInTwo(started, id, [Proceed, Proceed, Proceed], [Proceed, Proceed], removing, Without(s, slug));
  }

  lemma TwoCalls(s: State, id: JobId, a: Choice, b: Choice)
    ensures Run(Next, s, Calls(id, [a, b])) == Step(Step(s, id, a), id, b)
  {
    assert [a] == [] + [a] && [a, b] == [a] + [b];
    assert Run(Next, s, Calls(id, [])) == s;
    OneMoreCall(s, id, [], a);
    OneMoreCall(s, id, [a], b);
  }

  lemma RowIsDeleted(s: State, id: JobId, slug: string)
    requires slug in s.rows
    ensures var task := Delete(slug);
      && Step(Holding(s, id, Job(task, Finding, NO_CONTENT)), id, Proceed) == Holding(s, id, Job(task, DeletingRow, NO_CONTENT))
      && Step(Holding(s, id, Job(task, DeletingRow, NO_CONTENT)), id, Proceed)
         == Holding(s.(rows := s.rows - {slug}, stale := s.stale - {slug}), id, Job(task, DeletingContent, NO_CONTENT))
  {
    SiteIsFound(s, id, Delete(slug), DeletingRow);
    RowGoes(s, id, slug);
  }

  lemma RowGoes(s: State, id: JobId, slug: string)
    ensures Step(Holding(s, id, Job(Delete(slug), DeletingRow, NO_CONTENT)), id, Proceed)
         == Holding(s.(rows := s.rows - {slug}, stale := s.stale - {slug}), id, Job(Delete(slug), DeletingContent, NO_CONTENT))
  {}

  lemma ContentIsDeleted(s: State, id: JobId, slug: string)
    ensures Step(Holding(s.(rows := s.rows - {slug}, stale := s.stale - {slug}), id, Job(Delete(slug), DeletingContent, NO_CONTENT)),
                 id, Proceed)
         == Holding(Without(s, slug), id, Job(Delete(slug), Releasing, NO_CONTENT))
  {}

  /** The owner deletes a site that is due and publishes it afresh without an expiry; then it is deleted. */
  function RepublishedRun(input: NewSite, slug: string, name: string): seq<Event> {
    PublishRun(input, slug, name) + [Start(1, Delete(slug))] + Calls(1, DeletingCalls())
    + [Start(2, Publish(Lasting(input)))] + Calls(2, StagingCalls(Publish(Lasting(input)), name) + PublishingCalls(slug, 0))
  }

  /** The same content, to be kept for ever. */
  function Lasting(input: NewSite): NewSite {
    input.(expiresIn := None)
  }

  /** A sweep deletes even a site that is not the one it found due. */
  lemma RepublishedSiteIsStillSwept(input: NewSite, slug: string, name: string, now: int)
    requires Ordinary(input, slug, name)
    requires input.expiresIn.Some? && SaturatingAdd(0, input.expiresIn.value) <= now
    ensures var again := RepublishedRun(input, slug, name);
      var swept := Reached(again + [Start(3, Delete(slug))] + Calls(3, DeletingCalls()));
      && slug in Reached(PublishRun(input, slug, name)).rows && IsExpired(Reached(PublishRun(input, slug, name)).rows[slug], now)
      && slug in Reached(again).rows && (forall later :: !IsExpired(Reached(again).rows[slug], later))
      && slug !in swept.rows && slug !in swept.sites
      && FreshRun(again + [Start(3, Delete(slug))] + Calls(3, DeletingCalls()))
  {
    var tree := WriteAll(input.files).value;
    var due := WithSite(EMPTY_STORE, slug, NewRow(input, 0), tree);
    var first := PublishRun(input, slug, name);
    PublishRunPublishes(input, slug, name);
    DeletedRun(first, due, 1, slug);
    assert Without(due, slug) == EMPTY_STORE;
    var second := first + [Start(1, Delete(slug))] + Calls(1, DeletingCalls());
    var calls := StagingCalls(Publish(Lasting(input)), name) + PublishingCalls(slug, 0);
    OneEvent(second, Start(2, Publish(Lasting(input))));
    LoneStart(second, 2, Publish(Lasting(input)));
    LoneRunIsFresh(second + [Start(2, Publish(Lasting(input)))], 2, calls);
    UndisturbedPublicationSucceeds(EMPTY_STORE, 2, Lasting(input), name, slug, 0);
    var lasting := WithSite(EMPTY_STORE, slug, NewRow(Lasting(input), 0), tree);
    Extends(second + [Start(2, Publish(Lasting(input)))], Started(EMPTY_STORE, 2, Publish(Lasting(input))), Calls(2, calls), lasting);
    DeletedRun(RepublishedRun(input, slug, name), lasting, 3, slug);
  }

  lemma DeletedRun(first: seq<Event>, s: State, id: JobId, slug: string)
    requires FreshRun(first) && Reached(first) == s
    requires s.phase.Serving? && s.jobs == map[] && s.holder.None? && ValidSlug(slug) && slug in s.rows
    ensures var run := first + [Start(id, Delete(slug))] + Calls(id, DeletingCalls());
      FreshRun(run) && Reached(run) == Without(s, slug)
  {
    DeletionRuns(s, id, slug);
    OneEvent(first, Start(id, Delete(slug)));
    LoneStart(first, id, Delete(slug));
    Extends(first + [Start(id, Delete(slug))], Started(s, id, Delete(slug)), Calls(id, DeletingCalls()), Without(s, slug));
    LoneRunIsFresh(first + [Start(id, Delete(slug))], id, DeletingCalls());
  }
}
