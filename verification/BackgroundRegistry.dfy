/** The registry and its job objects, updated in place; each method is one step of JobModel. */
module BackgroundRegistryClass {
  import opened Wrappers
  import opened JobModel
  import opened JobProofs

  /** One entry. Continuations keep a reference to it after the registry has evicted it. */
  class InternalJob {
    const jobId: JobId
    const provenance: Provenance
    const hasCleanup: bool
    const hasSettled: bool
    var status: Status
    var result: Option<JobResult>
    var cancelSource: Option<Source>
    var modelCancelReason: Option<string>
    /** The value terminalSettled was resolved with, and the joins suspended on it. */
    var settled: Option<JobResult>
    var joiners: nat
    var stage: Stage
    /** Witness records and pipeline calls of this job, oldest first. */
    var log: seq<Record>
    var calls: seq<Call>
    /** Errors caught in the pipeline, as they were logged. */
    var caught: seq<Caught>

    ghost function Snap(): Job
      reads this
    {
      Job(provenance, hasCleanup, hasSettled, status, result, cancelSource, modelCancelReason, settled, joiners,
          stage, log, calls, caught)
    }

    constructor (jobId: JobId, provenance: Option<Provenance>, hasCleanup: bool, hasSettled: bool)
      ensures this.jobId == jobId && Snap() == NewJob(provenance, hasCleanup, hasSettled)
    {
      this.jobId := jobId;
      this.provenance := if provenance.Some? then provenance.value else ByUser;
      this.hasCleanup, this.hasSettled := hasCleanup, hasSettled;
      status, result, cancelSource, modelCancelReason := Running, None, None, None;
      settled, joiners, stage := None, 0, Active;
      log, calls, caught := [StartedRecord], [], [];
    }

    /** markTerminalImpl up to `await handle.teardown()`. */
    method MarkTerminal(r: JobResult)
      modifies this
      ensures Snap() == OnResult(old(Snap()), r)
    {
      if status != Running {
        return;
      }
      result := Some(r);
      status := StatusFromResult(r.status);
      if status == Cancelled {
        var source := if cancelSource.Some? then cancelSource.value else Explicit;
        log := log + [EndedRecord(Cancelled, Some(source), modelCancelReason)];
      } else {
        log := log + [EndedRecord(status, None, None)];
      }
      settled := Some(r);
      calls := calls + [Settle(r), Teardown];
      stage := TearingDown;
    }

    /** After teardown returned or threw. */
    method AfterTeardown(teardown: Ended, settled: Ended) returns (released: bool)
      modifies this
      ensures Snap() == OnTornDown(old(Snap()), teardown, settled) && released == Releases(old(Snap()), Snap())
    {
      released := false;
      if stage == TearingDown {
        Catch(Teardown, teardown);
        if hasCleanup {
          calls := calls + [Cleanup];
          stage := CleaningUp;
        } else {
          released := ReleaseBudget(settled);
        }
      }
    }

    /** After onCleanup returned or threw. */
    method AfterCleanup(cleanup: Ended, settled: Ended) returns (released: bool)
      modifies this
      ensures Snap() == OnCleanedUp(old(Snap()), cleanup, settled) && released == Releases(old(Snap()), Snap())
    {
      released := false;
      if stage == CleaningUp {
        Catch(Cleanup, cleanup);
        released := ReleaseBudget(settled);
      }
    }

    /** The catch clause around a call: the error is logged, nothing is rethrown. */
    method Catch(call: Call, ended: Ended)
      modifies this`caught
      ensures Snap() == Guarded(old(Snap()), call, ended)
    {
      match ended {
        case Returned =>
        case Threw(error) => caught := caught + [Caught.Caught(call, error)];
      }
    }

    method ReleaseBudget(settled: Ended) returns (released: bool)
      modifies this`calls, this`stage, this`caught
      ensures Snap() == ReleaseSlot(old(Snap()), settled) && released == hasSettled
    {
      stage := Finished;
      if hasSettled {
        calls := calls + [Release];
        Catch(Release, settled);
      }
      released := hasSettled;
    }

    method Attribute(source: Source, reason: Option<string>) returns (issued: bool)
      modifies this`cancelSource, this`modelCancelReason
      ensures Snap() == OnCancel(old(Snap()), source, reason) && issued == (status == Running)
    {
      issued := status == Running;
      if issued {
        cancelSource := Some(source);
        if reason.Some? {
          modelCancelReason := reason;
        }
      }
    }

    method ResumeJoin() returns (r: Option<JobResult>)
      modifies this`joiners, this`log
      ensures Snap() == OnJoined(old(Snap()))
      ensures r == if old(joiners) > 0 then settled else None
    {
      if joiners == 0 || settled.None? {
        return None;
      }
      joiners := joiners - 1;
      log := log + [JoinedRecord(status)];
      return settled;
    }
  }

  ghost function Snaps(all: map<JobId, InternalJob>): map<JobId, Job>
    reads all.Values
  {
    map id | id in all :: all[id].Snap()
  }

  lemma SnapsAdded(all: map<JobId, InternalJob>, job: InternalJob)
    ensures Snaps(all[job.jobId := job]) == Snaps(all)[job.jobId := job.Snap()]
  {
  }

  class BackgroundAgentRegistry {
    var jobs: map<JobId, InternalJob>
    var counter: nat
    const maxConcurrentJobs: int
    /** Pending evictions, delegation slots held, and the index kept for the summarizer. */
    var timers: set<JobId>
    var slots: int
    var watching: bool
    var index: map<JobId, nat>
    var nextIndex: nat

    /** Every job ever created. */
    ghost var all: map<JobId, InternalJob>
    ghost var since: set<JobId>

    ghost function View(): Registry
      reads this, all.Values
    {
      Registry(maxConcurrentJobs, counter, Snaps(all), jobs.Keys, timers, slots, watching,
               since, index, nextIndex)
    }

    ghost predicate Shape()
      reads this, all.Values
    {
      && (forall id | id in jobs :: id in all && all[id] == jobs[id])
      && (forall id | id in all :: all[id].jobId == id)
    }

    ghost predicate Valid()
      reads this, all.Values
    {
      Shape() && Sound(View())
    }

    constructor (cap: int, seed: nat)
      ensures Valid() && View() == Initial(cap, seed)
    {
      jobs, counter, maxConcurrentJobs := map[], seed, cap;
      timers, slots, watching, index, nextIndex := {}, 0, false, map[], 0;
      all, since := map[], {};
      new;
      InitialSound(cap, seed);
      assert View() == Initial(cap, seed);
    }

    // ----- the steps, each keeping the registry sound

    /** createJobEntry. None is BackgroundJobCapError: nothing has changed. */
    method Create(stamp: string, provenance: Option<Provenance>, hasCleanup: bool, hasSettled: bool)
      returns (r: Option<InternalJob>)
      requires Valid()
      modifies this
      ensures Valid() && View() == Step(old(View()), Event.Create(stamp, provenance, hasCleanup, hasSettled))
      ensures r.None? <==> |RunningJobs(old(View()))| >= maxConcurrentJobs
      ensures r.Some? ==> fresh(r.value) && r.value.jobId !in old(all) && all == old(all)[r.value.jobId := r.value]
      ensures r.None? ==> all == old(all)
    {
      ghost var g := View();
      NewIdIsNew(g, stamp);
      r := CreateJobEntry(stamp, provenance, hasCleanup, hasSettled);
      CreateStep(g, stamp, provenance, hasCleanup, hasSettled);
    }

    method OnResultArrived(id: JobId, result: JobResult)
      requires Valid()
      modifies this`timers, this`index, all.Values
      ensures Valid() && View() == Step(old(View()), Result(id, result))
    {
      StepSound(View(), Result(id, result));
      MarkTerminal(id, result);
    }

    /** teardown() of this job returned or threw. */
    method OnTeardownDone(job: InternalJob, teardown: Ended, settled: Ended)
      requires Valid() && job.jobId in all && all[job.jobId] == job
      modifies this`slots, job
      ensures Valid() && View() == Step(old(View()), TornDown(job.jobId, teardown, settled))
    {
      TornDownStep(View(), job.jobId, teardown, settled);
      ContinueAfterTeardown(job, teardown, settled);
    }

    /** onCleanup() of this job returned or threw. */
    method OnCleanupDone(job: InternalJob, cleanup: Ended, settled: Ended)
      requires Valid() && job.jobId in all && all[job.jobId] == job
      modifies this`slots, job
      ensures Valid() && View() == Step(old(View()), CleanedUp(job.jobId, cleanup, settled))
    {
      CleanedUpStep(View(), job.jobId, cleanup, settled);
      ContinueAfterCleanup(job, cleanup, settled);
    }

    method CancelJob(id: JobId) returns (issued: bool)
      requires Valid()
      modifies all.Values
      ensures Valid() && View() == Step(old(View()), Event.CancelJob(id))
      ensures issued <==> old(id in jobs && jobs[id].status == Running)
    {
      StepSound(View(), Event.CancelJob(id));
      issued := AttributeExplicit(id);
    }

    method CancelModelJob(id: JobId, reason: string) returns (issued: bool)
      requires Valid()
      modifies all.Values
      ensures Valid() && View() == Step(old(View()), Event.CancelModelJob(id, reason))
      ensures issued <==> old(id in jobs && jobs[id].status == Running && jobs[id].provenance == ByModel)
    {
      StepSound(View(), Event.CancelModelJob(id, reason));
      issued := AttributeModel(id, reason);
    }

    method CancelAll()
      requires Valid()
      modifies all.Values
      ensures Valid() && View() == Step(old(View()), Event.CancelAll)
    {
      StepSound(View(), Event.CancelAll);
      AttributeCascade();
    }

    method Join(id: JobId) returns (r: Option<InternalJob>)
      requires Valid()
      modifies all.Values
      ensures Valid() && View() == Step(old(View()), Event.Join(id))
      ensures r == if id in jobs then Some(jobs[id]) else None
    {
      StepSound(View(), Event.Join(id));
      r := AddJoiner(id);
    }

    /** A suspended join goes on once the job has settled, and returns the stored result. */
    method ResumeJoin(job: InternalJob) returns (r: Option<JobResult>)
      requires Valid() && job.jobId in all && all[job.jobId] == job
      modifies job
      ensures Valid() && View() == Step(old(View()), JoinResumed(job.jobId))
      ensures r == JoinValue(old(View()), job.jobId)
    {
      JoinResumedStep(View(), job.jobId);
      r := ContinueJoin(job);
    }

    method MarkDelivered(id: JobId)
      requires Valid()
      modifies all.Values
      ensures Valid() && View() == Step(old(View()), Event.MarkDelivered(id))
    {
      StepSound(View(), Event.MarkDelivered(id));
      RecordDelivery(id);
    }

    /** The eviction timer of a terminal job fires. No running job is ever dropped. */
    method Evict(id: JobId)
      requires Valid()
      modifies this`timers, this`jobs
      ensures Valid() && View() == Step(old(View()), Event.Evict(id))
      ensures RunningJobs(View()) == RunningJobs(old(View()))
    {
      StepSound(View(), Event.Evict(id));
      EvictKeepsRunning(View(), id);
      Drop(id);
    }

    /** The summarizer is built and subscribes to started and settled. */
    method Watch()
      requires Valid()
      modifies this`watching, this`index, this`nextIndex, this`since
      ensures Valid() && View() == Step(old(View()), Event.Watch)
    {
      StepSound(View(), Event.Watch);
      Subscribe();
    }

    // ----- their effect on the objects

    method CreateJobEntry(stamp: string, provenance: Option<Provenance>, hasCleanup: bool, hasSettled: bool)
      returns (r: Option<InternalJob>)
      requires Shape() && MakeId(stamp, counter + 1) !in View().jobs
      modifies this
      ensures Shape() && View() == StepCreate(old(View()), Event.Create(stamp, provenance, hasCleanup, hasSettled))
      ensures r.None? <==> |RunningJobs(old(View()))| >= maxConcurrentJobs
      ensures r.Some? ==> fresh(r.value) && r.value.jobId !in old(all) && all == old(all)[r.value.jobId := r.value]
      ensures r.None? ==> all == old(all)
    {
      var running := CountRunning();
      if running >= maxConcurrentJobs {
        return None;
      }
      var job := Admit(stamp, provenance, hasCleanup, hasSettled);
      return Some(job);
    }

    method Admit(stamp: string, provenance: Option<Provenance>, hasCleanup: bool, hasSettled: bool)
      returns (job: InternalJob)
      requires Shape() && MakeId(stamp, counter + 1) !in all
      modifies this
      ensures Shape() && fresh(job) && job.jobId == MakeId(stamp, old(counter) + 1) && all == old(all)[job.jobId := job]
      ensures View() == Announced(Inserted(old(View()), job.jobId, NewJob(provenance, hasCleanup, hasSettled)),
                                  job.jobId, hasSettled)
    {
      job := new InternalJob(MakeId(stamp, counter + 1), provenance, hasCleanup, hasSettled);
      Insert(job);
      Announce(job.jobId, hasSettled);
    }

    method CountRunning() returns (n: nat)
      requires Shape()
      ensures n == |RunningJobs(View())|
    {
      var running := set id | id in jobs && jobs[id].status == Running;
      assert running == RunningJobs(View());
      n := |running|;
    }

    method Insert(job: InternalJob)
      requires Shape() && job.jobId !in all
      modifies this`jobs, this`all, this`counter
      ensures Shape() && all == old(all)[job.jobId := job]
      ensures View() == Inserted(old(View()), job.jobId, job.Snap())
    {
      counter := counter + 1;
      Store(job);
    }

    method Store(job: InternalJob)
      requires Shape() && job.jobId !in all
      modifies this`jobs, this`all
      ensures Shape() && all == old(all)[job.jobId := job] && jobs.Keys == old(jobs).Keys + {job.jobId}
      ensures Snaps(all) == old(Snaps(all))[job.jobId := job.Snap()]
    {
      SnapsAdded(all, job);
      jobs, all := jobs[job.jobId := job], all[job.jobId := job];
    }

    /** The started event, as the summarizer's subscription and the delegation budget see it. */
    method Announce(id: JobId, hasSettled: bool)
      modifies this`slots, this`index, this`nextIndex, this`since
      ensures View() == Announced(old(View()), id, hasSettled)
    {
      ghost var g := View();
      if hasSettled {
        slots := slots + 1;
      }
      if watching {
        since := since + {id};
        index, nextIndex := index[id := nextIndex], nextIndex + 1;
      }
      assert View().jobs == g.jobs;
    }

    /** The completion, rejection or cancellation callback of a job, up to the first await. */
    method MarkTerminal(id: JobId, result: JobResult)
      requires Shape()
      modifies this`timers, this`index, all.Values
      ensures Shape() && View() == StepResult(old(View()), id, result)
    {
      if id in jobs && jobs[id].status == Running {
        Finish(jobs[id], result);
        Schedule(id);
      }
    }

    method Finish(job: InternalJob, result: JobResult)
      requires Shape() && job.jobId in all && all[job.jobId] == job
      modifies job
      ensures Shape() && View() == SetJob(old(View()), job.jobId, OnResult(old(job.Snap()), result))
    {
      ghost var g := View();
      job.MarkTerminal(result);
      assert View().jobs == g.jobs[job.jobId := job.Snap()];
    }

    /** The eviction timer, and the settled event as the summarizer's subscription sees it. */
    method Schedule(id: JobId)
      modifies this`timers, this`index
      ensures var g := old(View());
        View() == g.(timers := g.timers + {id}, index := if g.watching then g.index - {id} else g.index)
    {
      ghost var g := View();
      timers := timers + {id};
      if watching {
        index := index - {id};
      }
      assert View().jobs == g.jobs;
    }

    method ContinueAfterTeardown(job: InternalJob, teardown: Ended, settled: Ended)
      requires Shape() && job.jobId in all && all[job.jobId] == job
      modifies this`slots, job
      ensures Shape() && View() == StepTornDown(old(View()), job.jobId, teardown, settled)
    {
      ghost var g := View();
      var released := job.AfterTeardown(teardown, settled);
      assert View().jobs == g.jobs[job.jobId := job.Snap()];
      CountRelease(released);
    }

    method ContinueAfterCleanup(job: InternalJob, cleanup: Ended, settled: Ended)
      requires Shape() && job.jobId in all && all[job.jobId] == job
      modifies this`slots, job
      ensures Shape() && View() == StepCleanedUp(old(View()), job.jobId, cleanup, settled)
    {
      ghost var g := View();
      var released := job.AfterCleanup(cleanup, settled);
      assert View().jobs == g.jobs[job.jobId := job.Snap()];
      CountRelease(released);
    }

    /** The effect of onSettled on the delegation budget. */
    method CountRelease(released: bool)
      modifies this`slots
      ensures View() == old(View()).(slots := old(View()).slots - (if released then 1 else 0))
    {
      ghost var g := View();
      if released {
        slots := slots - 1;
      }
      assert View().jobs == g.jobs;
    }

    method AttributeExplicit(id: JobId) returns (issued: bool)
      requires Shape()
      modifies all.Values
      ensures Shape() && View() == StepCancel(old(View()), id)
      ensures issued <==> old(id in jobs && jobs[id].status == Running)
    {
      issued := false;
      if id in jobs {
        issued := Attribute(jobs[id], Explicit, None);
      }
    }

    method AttributeModel(id: JobId, reason: string) returns (issued: bool)
      requires Shape()
      modifies all.Values
      ensures Shape() && View() == StepCancelModel(old(View()), id, reason)
      ensures issued <==> old(id in jobs && jobs[id].status == Running && jobs[id].provenance == ByModel)
    {
      issued := false;
      if id in jobs && jobs[id].provenance == ByModel {
        issued := Attribute(jobs[id], Explicit, Some(reason));
      }
    }

    method Attribute(job: InternalJob, source: Source, reason: Option<string>) returns (issued: bool)
      requires Shape() && job.jobId in all && all[job.jobId] == job
      modifies job
      ensures Shape() && View() == SetJob(old(View()), job.jobId, OnCancel(old(job.Snap()), source, reason))
      ensures issued == old(job.status == Running)
    {
      ghost var g := View();
      issued := job.Attribute(source, reason);
      assert View().jobs == g.jobs[job.jobId := job.Snap()];
    }

    /** Every running job is attributed to the cascade before any handle is cancelled. */
    method AttributeCascade()
      requires Shape()
      modifies all.Values
      ensures Shape() && View() == StepCancelAll(old(View()))
    {
      ghost var g := View();
      var left := jobs.Keys;
      assert Cascaded(g, left) == g.jobs;
      while left != {}
        invariant left <= jobs.Keys && Shape()
        invariant View() == g.(jobs := Cascaded(g, left))
        decreases left
      {
        var id :| id in left;
        AttributeOne(g, left, id);
        left := left - {id};
      }
    }

    method AttributeOne(ghost g: Registry, ghost left: set<JobId>, id: JobId)
      requires Shape() && id in left && id in jobs && View() == g.(jobs := Cascaded(g, left))
      modifies all.Values
      ensures Shape() && View() == g.(jobs := Cascaded(g, left - {id}))
    {
      ghost var before := Cascaded(g, left);
      var _ := Attribute(jobs[id], ByCascade, None);
      assert before[id := OnCancel(before[id], ByCascade, None)] == Cascaded(g, left - {id});
    }

    method AddJoiner(id: JobId) returns (r: Option<InternalJob>)
      requires Shape()
      modifies all.Values
      ensures Shape() && View() == StepJoin(old(View()), id)
      ensures r == if id in jobs then Some(jobs[id]) else None
    {
      if id !in jobs {
        return None;
      }
      ghost var g := View();
      var job := jobs[id];
      job.joiners := job.joiners + 1;
      assert View().jobs == g.jobs[id := job.Snap()];
      return Some(job);
    }

    method ContinueJoin(job: InternalJob) returns (r: Option<JobResult>)
      requires Shape() && job.jobId in all && all[job.jobId] == job
      modifies job
      ensures Shape() && View() == StepJoinResumed(old(View()), job.jobId)
      ensures r == JoinValue(old(View()), job.jobId)
    {
      ghost var g := View();
      r := job.ResumeJoin();
      assert View().jobs == g.jobs[job.jobId := job.Snap()];
    }

    method RecordDelivery(id: JobId)
      requires Shape()
      modifies all.Values
      ensures Shape() && View() == StepDelivered(old(View()), id)
    {
      if id in jobs {
        ghost var g := View();
        var job := jobs[id];
        if job.status != Running {
          job.log := job.log + [DeliveredRecord(job.status)];
        }
        assert View().jobs == g.jobs[id := job.Snap()];
      }
    }

    method Drop(id: JobId)
      requires Shape()
      modifies this`timers, this`jobs
      ensures Shape() && View() == StepEvict(old(View()), id)
    {
      ghost var g := View();
      if id in timers {
        timers, jobs := timers - {id}, jobs - {id};
      }
      assert View().jobs == g.jobs;
    }

    method Subscribe()
      requires Shape()
      modifies this`watching, this`index, this`nextIndex, this`since
      ensures Shape() && View() == StepWatch(old(View()))
    {
      ghost var g := View();
      if !watching {
        watching, index, nextIndex, since := true, map[], 0, {};
      }
      assert View().jobs == g.jobs;
    }
  }
}
