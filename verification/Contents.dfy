/** The ownership record of one job: what it created, and what it still has to clean up. */
module Contents {
  import opened Calls
  import opened Histories
  import opened Invariants
  import opened Machine
  import opened Names
  import opened Protocol
  import opened Steps
  import opened Stores
  import opened Trees
  import opened Wrappers

  class Content {
    var stagingDirectory: string
    var stagingRemoved: bool
    var installedDirectory: Option<string>
    var preserveInstalled: bool

    function Record(): Ownership
      reads this
    {
      Ownership(stagingDirectory, stagingRemoved, installedDirectory, preserveInstalled)
    }

    /** Staging exists, and nothing has been installed. */
    predicate Fresh()
      reads this
    {
      !stagingRemoved && installedDirectory.None? && !preserveInstalled
    }

    /** Takes ownership of a staging directory that was just created. */
    constructor (name: string)
      ensures Record() == Ownership(name, false, None, false)
    {
      stagingDirectory, stagingRemoved, installedDirectory, preserveInstalled := name, false, None, false;
    }

    /**
     * Creates staging under a generated name, trying at most eight of them. Null means that every name that
     * was tried was taken, and either all eight were tried or a call failed.
     */
    static method New(store: Store, id: JobId, task: Task) returns (content: Content?)
      requires store.Valid() && Stages(task) && store.At(id, task, Opening(0), NO_CONTENT)
      requires store.faults == 0 && store.draws == []
      modifies store
      ensures store.Valid() && store.phase.Serving? && store.Plan() == old(store.Plan())
      ensures content == null ==>
        id !in store.jobs && NothingStaged(store.draws) && (store.faults > 0 || StagingNamesRanOut(store.draws))
      ensures content != null ==> fresh(content) && content.Fresh() && store.At(id, task, Writing(0), content.Record())
      ensures content != null ==> store.faults == 0
    {
      for attempt := 0 to MAX_STAGING_ATTEMPTS
        invariant store.Valid() && store.phase.Serving? && store.Plan() == old(store.Plan()) && store.faults == 0
        invariant |store.draws| == attempt && NothingStaged(store.draws)
        invariant if attempt < MAX_STAGING_ATTEMPTS then store.At(id, task, Opening(attempt), NO_CONTENT) else id !in store.jobs
      {
        var created: CallResult;
        created, content := TryName(store, id, task, attempt);
        if !created.Refused? { return; }
      }
      content := null;
    }

    /** One attempt: a name that is taken leaves the job to the next one. */
    static method TryName(store: Store, id: JobId, task: Task, attempt: nat)
      returns (created: CallResult, content: Content?)
      requires store.Valid() && Stages(task) && attempt < MAX_STAGING_ATTEMPTS
      requires store.At(id, task, Opening(attempt), NO_CONTENT)
      modifies store
      ensures store.Valid() && store.phase.Serving? && store.Plan() == old(store.Plan())
      ensures store.faults == old(store.faults) + if created.Faulted? then 1 else 0
      ensures created.Done? <==> content != null
      ensures created.Done? ==> fresh(content) && content.Fresh() && store.At(id, task, Writing(0), content.Record())
      ensures created.Faulted? ==> store.draws == old(store.draws)
      ensures created.Refused? ==>
        && |store.draws| == |old(store.draws)| + 1 && store.draws[..|store.draws| - 1] == old(store.draws)
        && store.draws[|store.draws| - 1].name in store.draws[|store.draws| - 1].state.tmp
      ensures created.Refused? && attempt + 1 < MAX_STAGING_ATTEMPTS ==> store.At(id, task, Opening(attempt + 1), NO_CONTENT)
      ensures created.Faulted? || (created.Refused? && attempt + 1 >= MAX_STAGING_ATTEMPTS) ==> id !in store.jobs
    {
      store.Interfere(id);
      created, content := TryNameNow(store, id, task, attempt);
    }

    static method TryNameNow(store: Store, id: JobId, task: Task, attempt: nat)
      returns (created: CallResult, content: Content?)
      requires store.Valid() && Stages(task) && attempt < MAX_STAGING_ATTEMPTS
      requires store.At(id, task, Opening(attempt), NO_CONTENT)
      modifies store
      ensures store.Valid() && store.phase.Serving? && store.Plan() == old(store.Plan())
      ensures store.faults == old(store.faults) + if created.Faulted? then 1 else 0
      ensures created.Done? <==> content != null
      ensures created.Done? ==> fresh(content) && content.Fresh() && store.At(id, task, Writing(0), content.Record())
      ensures created.Faulted? ==> store.draws == old(store.draws)
      ensures created.Refused? ==>
        && |store.draws| == |old(store.draws)| + 1 && store.draws[..|store.draws| - 1] == old(store.draws)
        && store.draws[|store.draws| - 1].name in store.draws[|store.draws| - 1].state.tmp
      ensures created.Refused? && attempt + 1 < MAX_STAGING_ATTEMPTS ==> store.At(id, task, Opening(attempt + 1), NO_CONTENT)
      ensures created.Faulted? || (created.Refused? && attempt + 1 >= MAX_STAGING_ATTEMPTS) ==> id !in store.jobs
    {
      content := null;
      ghost var before := store.World();
      var name := store.Generate();
      created := Faulted;
      if name.Some? { created := store.CreateStaging(name.value); }
      var next: Option<Job> := None;
      if created.Done? {
        content := new Content(name.value);
        next := Some(Job(task, Writing(0), content.Record()));
      } else if created.Refused? && attempt + 1 < MAX_STAGING_ATTEMPTS {
        next := Some(Job(task, Opening(attempt + 1), NO_CONTENT));
      }
      if created.Faulted? { OpeningFails(before, id); } else { OpeningTakes(before, id, name.value); }
      store.Conclude(id, next, before, if created.Faulted? then Fail else Pick(name.value));
    }

    /** Writes new regular files; without faults exactly the prefix-free file sets go through. */
    method Write(store: Store, id: JobId, task: Task) returns (ok: bool)
      requires store.Valid() && Stages(task) && store.At(id, task, Writing(0), Record())
      modifies store
      ensures store.Valid() && store.At(id, task, if ok then Waiting else Discarding, Record())
      ensures store.Plan() == old(store.Plan()) && store.draws == old(store.draws)
      ensures store.faults >= old(store.faults) && (ok ==> PrefixFree(task.input.files) && store.faults == old(store.faults))
      ensures store.faults == old(store.faults) ==> (ok <==> PrefixFree(task.input.files))
    {
      for next := 0 to |task.input.files|
        invariant store.Valid() && store.At(id, task, Writing(next), Record())
        invariant store.faults == old(store.faults) && store.Plan() == old(store.Plan()) && store.draws == old(store.draws)
      {
        var written := WriteNext(store, id, task, next);
        if !written.Done? { return false; }
      }
      StagingIsComplete(store, id, task);
      ok := true;
    }

    method WriteNext(store: Store, id: JobId, task: Task, next: nat) returns (written: CallResult)
      requires store.Valid() && Stages(task) && store.At(id, task, Writing(next), Record()) && next < |task.input.files|
      modifies store
      ensures store.Valid() && store.At(id, task, if written.Done? then Writing(next + 1) else Discarding, Record())
      ensures written.Refused? ==> !PrefixFree(task.input.files)
      ensures store.Plan() == old(store.Plan()) && store.draws == old(store.draws)
      ensures store.faults == old(store.faults) + if written.Faulted? then 1 else 0
    {
      store.Interfere(id);
      WritingKnows(store.World(), id);
      PrefixStages(task.input.files, next);
      written := WriteFile(store, id, task, next);
    }

    /** One file, once other jobs have had their turn. */
    method WriteFile(store: Store, id: JobId, task: Task, next: nat) returns (written: CallResult)
      requires store.Valid() && Stages(task) && store.At(id, task, Writing(next), Record()) && next < |task.input.files|
      requires stagingDirectory in store.tmp && WellFormed(store.tmp[stagingDirectory])
      requires ValidNested(task.input.files[next].name)
      modifies store
      ensures store.Valid() && store.At(id, task, if written.Done? then Writing(next + 1) else Discarding, Record())
      ensures written.Refused? ==> WriteOne(old(store.tmp)[stagingDirectory], task.input.files[next]).None?
      ensures store.Plan() == old(store.Plan()) && store.draws == old(store.draws)
      ensures store.faults == old(store.faults) + if written.Faulted? then 1 else 0
    {
      ghost var before := store.World();
      written := store.WriteStagedFile(stagingDirectory, task.input.files[next]);
      ghost var rest := store.tmp[stagingDirectory];
      WritingTakes(before, id, rest);
      if written.Faulted? {
        store.Conclude(id, Some(Job(task, Discarding, Record())), before, Spoil(rest));
      } else {
        var pc := if written.Done? then Writing(next + 1) else Discarding;
        store.Conclude(id, Some(Job(task, pc, Record())), before, Proceed);
      }
    }

    /** All files are written: the job goes on to wait for the lock. */
    method StagingIsComplete(store: Store, id: JobId, task: Task)
      requires store.Valid() && Stages(task) && store.At(id, task, Writing(|task.input.files|), Record())
      modifies store
      ensures store.Valid() && store.At(id, task, Waiting, Record())
      ensures PrefixFree(task.input.files) && store.faults == old(store.faults)
      ensures store.Plan() == old(store.Plan()) && store.draws == old(store.draws)
    {
      store.Interfere(id);
      WritingKnows(store.World(), id);
      assert task.input.files[..|task.input.files|] == task.input.files;
      WriteAllCorrect(task.input.files);
      WrittenTakes(store.World(), id);
      store.Conclude(id, Some(Job(task, Waiting, Record())), store.World(), Proceed);
    }

    // ---------- Publication ----------

    /** Exclusively creates the destination and owns it, or leaves an existing one untouched. */
    method ReserveDestination(store: Store, id: JobId, task: Task, now: int, attempt: nat, slug: string)
      returns (created: CallResult)
      requires store.Valid() && store.Holds(id, task, Reserving(now, attempt, slug), Record()) && task.Publish?
      modifies store, this`installedDirectory
      ensures store.Valid() && store.rows == old(store.rows)
      ensures created.Done? ==>
        && slug !in old(store.sites) && store.sites == old(store.sites)[slug := EMPTY_DIRECTORY]
        && installedDirectory == Some(slug)
      ensures !created.Done? ==> store.sites == old(store.sites) && installedDirectory == old(installedDirectory)
      ensures created.Refused? ==> slug in store.sites
      ensures store.Holds(id, task, match created
                                 case Done => Installing(now, slug)
                                 case Refused => Declining(now, attempt)
                                 case Faulted => RollingBack, Record())
      ensures store.Plan() == old(store.Plan()) && store.draws == old(store.draws)
      ensures store.faults == old(store.faults) + if created.Faulted? then 1 else 0
    {
      store.Interfere(id);
      ghost var before := store.World();
      created := store.CreateSite(slug);
      if created.Done? { installedDirectory := Some(slug); }
      var pc := if created.Done? then Installing(now, slug) else if created.Refused? then Declining(now, attempt) else RollingBack;
      ReserveTakes(before, id);
      store.Conclude(id, Some(Job(task, pc, Record())), before, if created.Faulted? then Fail else Proceed);
    }

    /** One rename makes the reservation the staged tree of the input. */
    method Install(store: Store, id: JobId, task: Task, now: int, slug: string) returns (renamed: CallResult)
      requires store.Valid() && store.Holds(id, task, Installing(now, slug), Record()) && task.Publish?
      modifies store, this`stagingRemoved
      ensures store.Valid() && store.rows == old(store.rows)
      ensures renamed.Done? ==>
        && WriteAll(task.input.files).Some? && store.sites == old(store.sites)[slug := WriteAll(task.input.files).value]
        && stagingRemoved
      ensures !renamed.Done? ==> store.sites == old(store.sites) && stagingRemoved == old(stagingRemoved)
      ensures store.Holds(id, task, if renamed.Done? then Committing(now, slug) else RollingBack, Record())
      ensures store.Plan() == old(store.Plan()) && store.draws == old(store.draws)
      ensures !renamed.Refused? && store.faults == old(store.faults) + if renamed.Faulted? then 1 else 0
    {
      store.Interfere(id);
      InstallingKnows(store.World(), id);
      renamed := InstallNow(store, id, task, now, slug);
    }

    /** The same once other jobs have had their turn. */
    method InstallNow(store: Store, id: JobId, task: Task, now: int, slug: string) returns (renamed: CallResult)
      requires store.Valid() && store.Holds(id, task, Installing(now, slug), Record()) && task.Publish?
      requires stagingDirectory in store.tmp && FreeFor(store.sites, slug)
      modifies store`tmp, store`sites, store`jobs, store`history, store`faults, store`draws, this`stagingRemoved
      ensures store.Valid() && !renamed.Refused?
      ensures stagingRemoved == if renamed.Done? then true else old(stagingRemoved)
      ensures store.sites == if renamed.Done? then old(store.sites)[slug := old(store.tmp)[stagingDirectory]] else old(store.sites)
      ensures store.Holds(id, task, if renamed.Done? then Committing(now, slug) else RollingBack, Record())
      ensures store.Plan() == old(store.Plan()) && store.draws == old(store.draws)
      ensures store.faults == old(store.faults) + if renamed.Faulted? then 1 else 0
    {
      ghost var before := store.World();
      InstallTakes(before, id);
      renamed := store.RenameIntoSites(stagingDirectory, slug, false);
      if renamed.Done? {
        stagingRemoved := true;
        store.Conclude(id, Some(Job(task, Committing(now, slug), Record())), before, Proceed);
      } else {
        store.Conclude(id, Some(Job(task, RollingBack, Record())), before, Fail);
      }
    }

    /** From here on no cleanup touches what was installed. */
    method PreserveInstalled()
      modifies this`preserveInstalled
      ensures preserveInstalled
    {
      preserveInstalled := true;
    }

    // ---------- Replacement ----------

    /**
     * Two renames put the served tree under the parked name and the staged tree in its place; if either
     * fails, the served tree is where it was.
     */
    method SwapInto(store: Store, id: JobId, task: Task, now: int) returns (swapped: bool)
      requires store.Valid() && store.Holds(id, task, Parking(now), Record()) && task.Replace? && !stagingRemoved
      modifies store, this`stagingRemoved
      ensures store.Valid() && store.rows == old(store.rows)
      ensures swapped ==>
        && task.slug in old(store.sites) && WriteAll(task.input.files).Some?
        && store.sites == old(store.sites)[task.slug := WriteAll(task.input.files).value]
        && ParkedName(Record()) in store.tmp && store.tmp[ParkedName(Record())] == old(store.sites)[task.slug]
        && FreeFor(old(store.tmp), ParkedName(Record()))
      ensures !swapped ==> store.sites == old(store.sites)
      ensures stagingRemoved == swapped && store.Holds(id, task, if swapped then Recording(now) else Unreserving, Record())
      ensures store.Plan() == old(store.Plan()) && store.draws == old(store.draws)
      ensures store.faults >= old(store.faults) && (swapped ==> store.faults == old(store.faults))
      ensures !swapped && store.faults == old(store.faults) ==> !FreeFor(old(store.tmp), ParkedName(Record()))
    {
      swapped := Park(store, id, task, now);
      ParkedAndBack(old(store.sites), task.slug);
      if swapped { swapped := PromoteOrRestore(store, id, task, now); }
    }

    /** The first rename of the swap. */
    method Park(store: Store, id: JobId, task: Task, now: int) returns (parked: bool)
      requires store.Valid() && store.Holds(id, task, Parking(now), Record()) && task.Replace?
      modifies store
      ensures store.Valid() && store.rows == old(store.rows)
      ensures parked ==>
        && task.slug in old(store.sites) && store.sites == old(store.sites) - {task.slug}
        && ParkedName(Record()) in store.tmp && store.tmp[ParkedName(Record())] == old(store.sites)[task.slug]
        && FreeFor(old(store.tmp), ParkedName(Record()))
      ensures !parked ==> store.sites == old(store.sites)
      ensures store.Holds(id, task, if parked then Promoting(now) else Unreserving, Record())
      ensures store.Plan() == old(store.Plan()) && store.draws == old(store.draws)
      ensures store.faults >= old(store.faults) && (parked ==> store.faults == old(store.faults))
      ensures !parked && store.faults == old(store.faults) ==> !FreeFor(old(store.tmp), ParkedName(Record()))
    {
      store.Interfere(id);
      ParkingKnows(store.World(), id);
      parked := ParkNow(store, id, task, now);
    }

    /** The same once other jobs have had their turn. */
    method ParkNow(store: Store, id: JobId, task: Task, now: int) returns (parked: bool)
      requires store.Valid() && store.Holds(id, task, Parking(now), Record()) && task.Replace?
      requires stagingDirectory in store.tmp && task.slug in store.sites
      modifies store
      ensures store.Valid() && store.rows == old(store.rows)
      ensures parked ==>
        && FreeFor(old(store.tmp), ParkedName(Record())) && store.sites == old(store.sites) - {task.slug}
        && store.tmp == old(store.tmp)[ParkedName(Record()) := old(store.sites)[task.slug]]
      ensures !parked ==> store.sites == old(store.sites)
      ensures store.Holds(id, task, if parked then Promoting(now) else Unreserving, Record())
      ensures store.Plan() == old(store.Plan()) && store.draws == old(store.draws)
      ensures store.faults >= old(store.faults) && (parked ==> store.faults == old(store.faults))
      ensures !parked && store.faults == old(store.faults) ==> !FreeFor(old(store.tmp), ParkedName(Record()))
    {
      ghost var before := store.World();
      ParkTakes(before, id);
      var renamed := store.RenameIntoTmp(task.slug, ParkedName(Record()), false);
      parked := renamed.Done?;
      var pc := if parked then Promoting(now) else Unreserving;
      store.Conclude(id, Some(Job(task, pc, Record())), before, if renamed.Faulted? then Fail else Proceed);
    }

    /** The second rename of the swap, and the restoring rename if it fails. */
    method PromoteOrRestore(store: Store, id: JobId, task: Task, now: int) returns (swapped: bool)
      requires store.Valid() && store.Holds(id, task, Promoting(now), Record()) && task.Replace?
      requires ParkedName(Record()) in store.tmp && !stagingRemoved
      modifies store, this`stagingRemoved
      ensures store.Valid() && store.rows == old(store.rows)
      ensures swapped ==>
        && WriteAll(task.input.files).Some?
        && store.sites == old(store.sites)[task.slug := WriteAll(task.input.files).value]
        && ParkedStays(old(store.tmp), store.tmp, Record())
      ensures !swapped ==> store.sites == old(store.sites)[task.slug := old(store.tmp)[ParkedName(Record())]]
      ensures stagingRemoved == swapped && store.Holds(id, task, if swapped then Recording(now) else Unreserving, Record())
      ensures store.Plan() == old(store.Plan()) && store.draws == old(store.draws)
      ensures store.faults == old(store.faults) + if swapped then 0 else 1
    {
      swapped := Promote(store, id, task, now);
      if !swapped { Unpark(store, id, task); }
    }

    /** The second rename of the swap. */
    method Promote(store: Store, id: JobId, task: Task, now: int) returns (promoted: bool)
      requires store.Valid() && store.Holds(id, task, Promoting(now), Record()) && task.Replace?
      requires ParkedName(Record()) in store.tmp && !stagingRemoved
      modifies store, this`stagingRemoved
      ensures store.Valid() && store.rows == old(store.rows)
      ensures ParkedStays(old(store.tmp), store.tmp, Record())
      ensures store.Holds(id, task, if promoted then Recording(now) else Unparking, Record()) && stagingRemoved == promoted
      ensures promoted ==>
        && WriteAll(task.input.files).Some?
        && store.sites == old(store.sites)[task.slug := WriteAll(task.input.files).value]
      ensures !promoted ==> store.sites == old(store.sites)
      ensures store.Plan() == old(store.Plan()) && store.draws == old(store.draws)
      ensures store.faults == old(store.faults) + if promoted then 0 else 1
    {
      store.Interfere(id);
      PromotingKnows(store.World(), id);
      promoted := PromoteNow(store, id, task, now);
    }

    /** The same once other jobs have had their turn. */
    method PromoteNow(store: Store, id: JobId, task: Task, now: int) returns (promoted: bool)
      requires store.Valid() && store.Holds(id, task, Promoting(now), Record()) && task.Replace? && !stagingRemoved
      requires stagingDirectory in store.tmp && FreeFor(store.sites, task.slug)
      modifies store`tmp, store`sites, store`jobs, store`history, store`faults, store`draws, this`stagingRemoved
      ensures store.Valid()
      ensures store.Holds(id, task, if promoted then Recording(now) else Unparking, Record()) && stagingRemoved == promoted
      ensures store.tmp == if promoted then old(store.tmp) - {stagingDirectory} else old(store.tmp)
      ensures store.sites == if promoted then old(store.sites)[task.slug := old(store.tmp)[stagingDirectory]] else old(store.sites)
      ensures store.Plan() == old(store.Plan()) && store.draws == old(store.draws)
      ensures store.faults == old(store.faults) + if promoted then 0 else 1
    {
      ghost var before := store.World();
      PromoteTakes(before, id);
      var renamed := store.RenameIntoSites(stagingDirectory, task.slug, false);
      promoted := renamed.Done?;
      if promoted {
        stagingRemoved := true;
        store.Conclude(id, Some(Job(task, Recording(now), Record())), before, Proceed);
      } else {
        store.Conclude(id, Some(Job(task, Unparking, Record())), before, Fail);
      }
    }

    /** The restoring rename when the second one failed. */
    method Unpark(store: Store, id: JobId, task: Task)
      requires store.Valid() && store.Holds(id, task, Unparking, Record()) && task.Replace?
      requires ParkedName(Record()) in store.tmp
      modifies store
      ensures store.Valid() && store.Holds(id, task, Unreserving, Record())
      ensures store.rows == old(store.rows) && store.faults == old(store.faults)
      ensures store.Plan() == old(store.Plan()) && store.draws == old(store.draws)
      ensures store.sites == old(store.sites)[task.slug := old(store.tmp)[ParkedName(Record())]]
    {
      store.Interfere(id);
      ghost var before := store.World();
      SwapKnows(before, id);
      var _ := store.RenameIntoSites(ParkedName(Record()), task.slug, true);
      UnparkTakes(before, id);
      store.Conclude(id, Some(Job(task, Unreserving, Record())), before, Proceed);
    }

    /** The two renames in reverse: the new tree is staged again, and the parked one served. */
    method SwapBack(store: Store, id: JobId, task: Task)
      requires store.Valid() && store.Holds(id, task, Withdrawing, Record()) && task.Replace?
      requires ParkedName(Record()) in store.tmp
      modifies store, this`stagingRemoved
      ensures store.Valid() && store.Holds(id, task, Unreserving, Record()) && !stagingRemoved
      ensures store.rows == old(store.rows) && store.faults == old(store.faults)
      ensures store.Plan() == old(store.Plan()) && store.draws == old(store.draws)
      ensures store.sites == old(store.sites)[task.slug := old(store.tmp)[ParkedName(Record())]]
    {
      Withdraw(store, id, task);
      Restore(store, id, task);
    }

    method Withdraw(store: Store, id: JobId, task: Task)
      requires store.Valid() && store.Holds(id, task, Withdrawing, Record()) && task.Replace?
      requires ParkedName(Record()) in store.tmp
      modifies store
      ensures store.Valid() && store.Holds(id, task, Restoring, Record())
      ensures store.rows == old(store.rows) && store.faults == old(store.faults)
      ensures store.Plan() == old(store.Plan()) && store.draws == old(store.draws)
      ensures store.sites == old(store.sites) - {task.slug}
      ensures ParkedStays(old(store.tmp), store.tmp, Record()) && ParkedName(Record()) in store.tmp
    {
      store.Interfere(id);
      ghost var before := store.World();
      WithdrawingKnows(before, id);
      var _ := store.RenameIntoTmp(task.slug, stagingDirectory, true);
      WithdrawTakes(before, id);
      store.Conclude(id, Some(Job(task, Restoring, Record())), before, Proceed);
    }

    method Restore(store: Store, id: JobId, task: Task)
      requires store.Valid() && store.Holds(id, task, Restoring, Record()) && task.Replace?
      requires ParkedName(Record()) in store.tmp
      modifies store, this`stagingRemoved
      ensures store.Valid() && store.Holds(id, task, Unreserving, Record()) && !stagingRemoved
      ensures store.rows == old(store.rows) && store.faults == old(store.faults)
      ensures store.Plan() == old(store.Plan()) && store.draws == old(store.draws)
      ensures store.sites == old(store.sites)[task.slug := old(store.tmp)[ParkedName(Record())]]
    {
      store.Interfere(id);
      SwapKnows(store.World(), id);
      RestoreNow(store, id, task);
    }

    /** The same once other jobs have had their turn. */
    method RestoreNow(store: Store, id: JobId, task: Task)
      requires store.Valid() && store.Holds(id, task, Restoring, Record()) && task.Replace?
      requires ParkedName(Record()) in store.tmp && FreeFor(store.sites, task.slug)
      modifies store, this`stagingRemoved
      ensures store.Valid() && store.Holds(id, task, Unreserving, Record()) && !stagingRemoved
      ensures store.rows == old(store.rows) && store.faults == old(store.faults)
      ensures store.Plan() == old(store.Plan()) && store.draws == old(store.draws)
      ensures store.sites == old(store.sites)[task.slug := old(store.tmp)[ParkedName(Record())]]
    {
      ghost var before := store.World();
      RestoreTakes(before, id);
      var _ := store.RenameIntoSites(ParkedName(Record()), task.slug, true);
      stagingRemoved := false;
      store.Conclude(id, Some(Job(task, Unreserving, Record())), before, Proceed);
    }

    // ---------- Cleanup ----------

    /** Cleanup before the lock was taken: only staging was created, and the job ends with it. */
    method Discard(store: Store, id: JobId, task: Task)
      requires store.Valid() && Stages(task) && store.At(id, task, Discarding, Record())
      requires store.history.closing.None? && store.history.closed.None?
      modifies store
      ensures store.Valid() && id !in store.jobs && store.phase.Serving? && store.faults >= old(store.faults)
      ensures store.history.closing.Some? && store.draws == old(store.draws)
      ensures store.Plan().(closing := None, closed := None) == old(store.Plan())
      ensures !Untidy(store.history, store.faults) ==> StagingIsGone(store.history)
    {
      StagingIsOwned(store.World(), id);
      store.BeginCleanup();
      var ok := store.RemoveTmpTree(id);
      store.EndCleanup();
    }

    /**
     * Removes an unused reservation, then owned staging, if the storage checks out; true says that all of
     * this succeeded.
     */
    method Cleanup(store: Store, id: JobId, task: Task) returns (ok: bool)
      requires store.Valid() && Stages(task) && store.Holds(id, task, Unreserving, Record())
      requires store.history.closing.None? && store.history.closed.None?
      modifies store
      ensures store.Valid() && store.Holds(id, task, Releasing, Record()) && store.rows == old(store.rows)
      ensures !Unused(Record()) ==> store.sites == old(store.sites)
      ensures Unused(Record()) ==>
        store.sites == old(store.sites) || store.sites == old(store.sites) - {installedDirectory.value}
      ensures ok && Unused(Record()) ==> store.sites == old(store.sites) - {installedDirectory.value}
      ensures store.faults >= old(store.faults) && (ok <==> store.faults == old(store.faults))
      ensures store.draws == old(store.draws)
      ensures store.history.closing.Some? && Reached(store.history.closing.value) == old(store.World())
      ensures store.Plan().(closing := None, closed := None) == old(store.Plan())
      ensures ok <==> !Untidy(store.history, store.faults)
      ensures ok ==> Tidied(store.history)
    {
      store.BeginCleanup();
      ok := RemoveOwned(store, id, task);
      store.EndCleanup();
    }

    method RemoveOwned(store: Store, id: JobId, task: Task) returns (ok: bool)
      requires store.Valid() && Stages(task) && store.Holds(id, task, Unreserving, Record())
      modifies store
      ensures store.Valid() && store.Holds(id, task, Releasing, Record()) && store.rows == old(store.rows)
      ensures !Unused(Record()) ==> store.sites == old(store.sites)
      ensures Unused(Record()) ==>
        store.sites == old(store.sites) || store.sites == old(store.sites) - {installedDirectory.value}
      ensures ok && Unused(Record()) ==> store.sites == old(store.sites) - {installedDirectory.value}
      ensures ok && !stagingRemoved ==> stagingDirectory !in store.tmp
      ensures store.faults >= old(store.faults) && (ok <==> store.faults == old(store.faults))
      ensures store.Plan() == old(store.Plan()) && store.draws == old(store.draws)
    {
      var unchecked := store.Fault();
      if unchecked {
        SkipCleanup(store, id, task);
        return false;
      }
      var reserved := RemoveReservation(store, id, task);
      var staging := RemoveStaging(store, id, task);
      ok := reserved && staging;
    }

    /** Without a storage check nothing is removed. */
    method SkipCleanup(store: Store, id: JobId, task: Task)
      requires store.Valid() && Stages(task) && store.Holds(id, task, Unreserving, Record())
      modifies store
      ensures store.Valid() && store.Holds(id, task, Releasing, Record()) && store.faults > old(store.faults)
      ensures store.rows == old(store.rows) && store.sites == old(store.sites)
      ensures store.Plan() == old(store.Plan()) && store.draws == old(store.draws)
    {
      store.Interfere(id);
      UnreservingKnows(store.World(), id);
      UnreserveTakes(store.World(), id);
      store.Conclude(id, Some(Job(task, Unstaging, Record())), store.World(), Fail);
      SkipStaging(store, id, task);
    }

    method SkipStaging(store: Store, id: JobId, task: Task)
      requires store.Valid() && Stages(task) && store.Holds(id, task, Unstaging, Record())
      modifies store
      ensures store.Valid() && store.Holds(id, task, Releasing, Record())
      ensures store.faults == old(store.faults) + if stagingRemoved then 0 else 1
      ensures store.rows == old(store.rows) && store.sites == old(store.sites)
      ensures store.Plan() == old(store.Plan()) && store.draws == old(store.draws)
    {
      store.Interfere(id);
      UnstageSkips(store.World(), id);
      store.Conclude(id, Some(Job(task, Releasing, Record())), store.World(), if stagingRemoved then Proceed else Fail);
    }

    method RemoveReservation(store: Store, id: JobId, task: Task) returns (ok: bool)
      requires store.Valid() && Stages(task) && store.Holds(id, task, Unreserving, Record())
      modifies store
      ensures store.Valid() && store.Holds(id, task, Unstaging, Record()) && store.rows == old(store.rows)
      ensures store.sites == if ok && Unused(Record()) then old(store.sites) - {installedDirectory.value} else old(store.sites)
      ensures store.faults == old(store.faults) + if ok then 0 else 1
      ensures store.Plan() == old(store.Plan()) && store.draws == old(store.draws)
    {
      store.Interfere(id);
      UnreservingKnows(store.World(), id);
      ok := ReleaseReservation(store, id, task);
    }

    /** The same once other jobs have had their turn. */
    method ReleaseReservation(store: Store, id: JobId, task: Task) returns (ok: bool)
      requires store.Valid() && Stages(task) && store.Holds(id, task, Unreserving, Record())
      requires Unused(Record()) ==> OwnReservation(store.World(), installedDirectory.value)
      modifies store
      ensures store.Valid() && store.Holds(id, task, Unstaging, Record()) && store.rows == old(store.rows)
      ensures store.sites == if ok && Unused(Record()) then old(store.sites) - {installedDirectory.value} else old(store.sites)
      ensures store.faults == old(store.faults) + if ok then 0 else 1
      ensures store.Plan() == old(store.Plan()) && store.draws == old(store.draws)
    {
      ghost var before := store.World();
      UnreserveTakes(before, id);
      ok := true;
      if Unused(Record()) {
        var removed := store.RemoveEmptySite(installedDirectory.value);
        ok := removed.Done?;
      }
      store.Conclude(id, Some(Job(task, Unstaging, Record())), before, if ok then Proceed else Fail);
    }

    method RemoveStaging(store: Store, id: JobId, task: Task) returns (ok: bool)
      requires store.Valid() && Stages(task) && store.Holds(id, task, Unstaging, Record())
      modifies store
      ensures store.Valid() && store.Holds(id, task, Releasing, Record())
      ensures store.rows == old(store.rows) && store.sites == old(store.sites)
      ensures ok && !stagingRemoved ==> stagingDirectory !in store.tmp
      ensures store.faults == old(store.faults) + if ok then 0 else 1
      ensures store.Plan() == old(store.Plan()) && store.draws == old(store.draws)
    {
      if stagingRemoved {
        SkipStaging(store, id, task);
        ok := true;
      } else {
        StagingIsOwned(store.World(), id);
        ok := store.RemoveTmpTree(id);
      }
    }
  }

  /**
   * Everything that a publication or a replacement does before it holds the lock. An error is either a call
   * that has not come back or a failed staging; in both cases the job has never held the lock.
   */
  method StageAndLock(store: Store, id: JobId, task: Task) returns (staged: Result<Content, Failure>)
    requires store.Valid() && store.phase.Serving? && id !in store.jobs && ValidTask(task) && Stages(task)
    modifies store
    ensures store.Valid() && store.phase.Serving?
    ensures CallOf(store.history, id, task, old(store.history.trace), old(store.pending))
    ensures store.history.locked.Some? <==> staged.Ok?
    ensures staged.Ok? ==>
      && fresh(staged.value) && staged.value.Fresh() && PrefixFree(task.input.files)
      && store.Holds(id, task, if task.Publish? then Dating else Finding, staged.value.Record())
      && Reached(store.history.locked.value) == store.World() && store.faults == 0
      && store.history.clock.None? && store.history.closing.None? && store.history.closed.None?
    ensures staged.Err? ==>
      && KeptOut(store.history)
      && (if staged.error == Unfinished then StillWaiting(store.World(), store.pending, id, task)
          else staged.error == Operational && id !in store.jobs && StagingEnded(task.input, store.history, store.faults, store.draws))
  {
    store.Begin(id, task);
    var content := Content.New(store, id, task);
    if content == null {
      store.Retell();
      return Err(Operational);
    }
    var written := content.Write(store, id, task);
    if !written {
      content.Discard(store, id, task);
      store.Retell();
      return Err(Operational);
    }
    var acquired := store.Acquire(id);
    if !acquired {
      store.Retell();
      return Err(Unfinished);
    }
    staged := Ok(content);
  }

  lemma ParkedAndBack(sites: map<string, Tree>, slug: string)
    ensures forall tree: Tree {:trigger sites[slug := tree]} :: (sites - {slug})[slug := tree] == sites[slug := tree]
    ensures slug in sites ==> sites[slug := sites[slug]] == sites
  {}

  lemma InstallingKnows(s: State, id: JobId)
    requires Reachable(s) && id in s.jobs && s.jobs[id].pc.Installing? && s.jobs[id].task.Publish?
    ensures var job := s.jobs[id];
      && job.content.staging in s.tmp && WriteAll(job.task.input.files) == Some(s.tmp[job.content.staging])
      && FreeFor(s.sites, job.pc.slug)
  {
    Known(s, id);
  }

  /** A replacement about to park has staged everything, and the row it found has a directory. */
  lemma ParkingKnows(s: State, id: JobId)
    requires Reachable(s) && id in s.jobs && s.jobs[id].pc.Parking? && s.jobs[id].task.Replace? && s.phase.Serving?
    ensures s.jobs[id].content.staging in s.tmp && s.jobs[id].task.slug in s.sites
  {
    Known(s, id);
    RowHasContent(s, s.jobs[id].task.slug);
  }

  lemma PromotingKnows(s: State, id: JobId)
    requires Reachable(s) && id in s.jobs && s.jobs[id].pc.Promoting? && s.jobs[id].task.Replace?
    ensures var job := s.jobs[id];
      && job.content.staging in s.tmp && WriteAll(job.task.input.files) == Some(s.tmp[job.content.staging])
      && FreeFor(s.sites, job.task.slug) && ParkedName(job.content) != job.content.staging
      && ParkedName(job.content) in Claims(job)
  {
    Known(s, id);
    ParkedNamesAreApart(s.jobs[id].content.staging, s.jobs[id].content.staging);
  }

  lemma SwapKnows(s: State, id: JobId)
    requires Reachable(s) && id in s.jobs && (s.jobs[id].pc.Unparking? || s.jobs[id].pc.Restoring?) && s.jobs[id].task.Replace?
    ensures ParkedName(s.jobs[id].content) in s.tmp && FreeFor(s.sites, s.jobs[id].task.slug)
    ensures ParkedName(s.jobs[id].content) in Claims(s.jobs[id])
  {
    Known(s, id);
  }

  lemma WithdrawingKnows(s: State, id: JobId)
    requires Reachable(s) && id in s.jobs && s.jobs[id].pc.Withdrawing? && s.jobs[id].task.Replace?
    ensures s.jobs[id].task.slug in s.sites && FreeFor(s.tmp, s.jobs[id].content.staging)
    ensures ParkedName(s.jobs[id].content) != s.jobs[id].content.staging
    ensures ParkedName(s.jobs[id].content) in Claims(s.jobs[id])
  {
    Known(s, id);
    ParkedNamesAreApart(s.jobs[id].content.staging, s.jobs[id].content.staging);
  }

  lemma UnreservingKnows(s: State, id: JobId)
    requires Reachable(s) && id in s.jobs && s.jobs[id].pc.Unreserving? && Stages(s.jobs[id].task)
    ensures Unused(s.jobs[id].content) ==> OwnReservation(s, s.jobs[id].content.installed.value)
  {
    Known(s, id);
  }

  lemma StagingIsOwned(s: State, id: JobId)
    requires Reachable(s) && id in s.jobs && (s.jobs[id].pc.Discarding? || s.jobs[id].pc.Unstaging?) && Stages(s.jobs[id].task)
    ensures !s.jobs[id].content.stagingRemoved ==> s.jobs[id].content.staging in s.tmp
    ensures s.jobs[id].pc.Discarding? ==> !s.jobs[id].content.stagingRemoved
  {
    Known(s, id);
  }

  lemma WritingKnows(s: State, id: JobId)
    requires Reachable(s) && id in s.jobs && s.jobs[id].pc.Writing?
    ensures var job := s.jobs[id];
      && Stages(job.task) && ValidNames(job.task.input.files) && job.pc.next <= |job.task.input.files|
      && job.content.staging in s.tmp
      && WriteAll(job.task.input.files[..job.pc.next]) == Some(s.tmp[job.content.staging])
      && WellFormed(s.tmp[job.content.staging])
  {
    Known(s, id);
    var files := s.jobs[id].task.input.files;
    forall file <- files[..s.jobs[id].pc.next] ensures ValidNested(file.name) { assert file in files; }
    WriteAllCorrect(files[..s.jobs[id].pc.next]);
  }

  lemma PrefixStages(files: seq<SiteFile>, next: nat)
    requires ValidNames(files) && next < |files| && WriteAll(files[..next]).Some?
    ensures WriteAll(files[..next + 1]) == WriteOne(WriteAll(files[..next]).value, files[next])
    ensures WriteAll(files[..next + 1]).None? ==> !PrefixFree(files)
  {
    assert files[..next + 1][..next] == files[..next];
    forall file <- files[..next + 1] ensures ValidNested(file.name) { assert file in files; }
    WriteAllCorrect(files[..next + 1]);
    if !PrefixFree(files[..next + 1]) {
      var i, j :| 0 <= i <= next && 0 <= j <= next && i != j && Leads(Parts(files[..next + 1][i]), Parts(files[..next + 1][j]));
      assert Leads(Parts(files[i]), Parts(files[j]));
    }
  }
}
