/**
  The background-job registry as a state machine over its atomic steps: whatever runs between two awaits.
  `jobs` remembers every job ever created (continuations still hold evicted ones); `listed` is the registry map.
 */
module JobModel {
  import opened Wrappers

  type JobId = string

  datatype Status = Running | Completed | Failed | Cancelled
  datatype SubagentStatus = Succeeded | SubagentFailed | SubagentCancelled | Idle | StillRunning
  datatype JobResult = JobResult(status: SubagentStatus, body: string)
  datatype Provenance = ByModel | ByUser | UserBackgrounded
  datatype Source = Explicit | ByCascade

  /** One record in the witness trace of a job. */
  datatype Record =
    | StartedRecord
    | EndedRecord(status: Status, source: Option<Source>, modelReason: Option<string>)
    | JoinedRecord(status: Status)
    | DeliveredRecord(status: Status)

  /** One call the terminal pipeline makes. */
  datatype Call = Settle(result: JobResult) | Teardown | Cleanup | Release

  /** How a call of the pipeline ended, and the line logged for one that threw. */
  datatype Ended = Returned | Threw(error: string)
  datatype Caught = Caught(call: Call, error: string)

  /** Where the terminal pipeline of a job is suspended. */
  datatype Stage = Active | TearingDown | CleaningUp | Finished

  datatype Job = Job(
    provenance: Provenance, hasCleanup: bool, hasSettled: bool,
    status: Status, result: Option<JobResult>, cancelSource: Option<Source>, modelReason: Option<string>,
    promise: Option<JobResult>, joiners: nat, stage: Stage, log: seq<Record>, calls: seq<Call>,
    caught: seq<Caught>)

  function NewJob(provenance: Option<Provenance>, hasCleanup: bool, hasSettled: bool): Job {
    Job(if provenance.Some? then provenance.value else ByUser, hasCleanup, hasSettled,
        Running, None, None, None, None, 0, Active, [StartedRecord], [], [])
  }

  function StatusFromResult(s: SubagentStatus): (r: Status)
    ensures r != Running
    ensures r == Completed <==> s == Succeeded
    ensures r == Cancelled <==> s == SubagentCancelled
  {
    match s
    case Succeeded => Completed
    case SubagentFailed => Failed
    case SubagentCancelled => Cancelled
    case _ => Failed
  }

  // ----- one job

  function Ending(j: Job, status: Status): Record {
    if status == Cancelled then
      EndedRecord(status, Some(if j.cancelSource.Some? then j.cancelSource.value else Explicit), j.modelReason)
    else EndedRecord(status, None, None)
  }

  /** markTerminal up to its first await: guarded by the running status. */
  function OnResult(j: Job, r: JobResult): Job {
    if j.status != Running then j
    else
      var status := StatusFromResult(r.status);
      j.(result := Some(r), status := status, log := j.log + [Ending(j, status)], promise := Some(r),
         calls := j.calls + [Settle(r), Teardown], stage := TearingDown)
  }

  /** The try and catch around one call: an error is logged, and control goes on either way. */
  function Guarded(j: Job, call: Call, ended: Ended): Job {
    match ended
    case Returned => j
    case Threw(error) => j.(caught := j.caught + [Caught(call, error)])
  }

  /** onSettled is called if there is one, and returns or throws. */
  function ReleaseSlot(j: Job, settled: Ended): Job {
    if j.hasSettled then Guarded(j.(stage := Finished, calls := j.calls + [Release]), Release, settled)
    else j.(stage := Finished)
  }

  /** The rest of markTerminal after teardown returned or threw: onCleanup is called if there is one. */
  function OnTornDown(j: Job, teardown: Ended, settled: Ended): Job {
    if j.stage != TearingDown then j
    else
      var k := Guarded(j, Teardown, teardown);
      if k.hasCleanup then k.(stage := CleaningUp, calls := k.calls + [Cleanup]) else ReleaseSlot(k, settled)
  }

  /** ... and after onCleanup returned or threw. */
  function OnCleanedUp(j: Job, cleanup: Ended, settled: Ended): Job {
    if j.stage != CleaningUp then j else ReleaseSlot(Guarded(j, Cleanup, cleanup), settled)
  }

  function OnCancel(j: Job, source: Source, reason: Option<string>): Job {
    if j.status != Running then j
    else j.(cancelSource := Some(source), modelReason := if reason.Some? then reason else j.modelReason)
  }

  function OnJoined(j: Job): Job {
    if j.joiners == 0 || j.promise.None? then j
    else j.(joiners := j.joiners - 1, log := j.log + [JoinedRecord(j.status)])
  }

  function OnDelivered(j: Job): Job {
    if j.status == Running then j else j.(log := j.log + [DeliveredRecord(j.status)])
  }

  // ----- job ids

  function Digit(d: nat): char
    requires d < 10
  {
    "0123456789"[d]
  }

  function Decimal(n: nat): string {
    if n < 10 then [Digit(n)] else Decimal(n / 10) + [Digit(n % 10)]
  }

  /** The clock reading in base 36 is left abstract: uniqueness must not depend on it. */
  function MakeId(stamp: string, counter: nat): JobId {
    "bg-" + stamp + "-" + Decimal(counter)
  }

  // ----- the registry

  /** Timers are the pending evictions. The watcher is the summarizer's job index; `since` are the jobs started
      while it was subscribed. */
  datatype Registry = Registry(
    cap: int, counter: nat, jobs: map<JobId, Job>, listed: set<JobId>, timers: set<JobId>, slots: int,
    watching: bool, since: set<JobId>, index: map<JobId, nat>, nextIndex: nat)

  function Initial(cap: int, seed: nat): Registry {
    Registry(cap, seed, map[], {}, {}, 0, false, {}, map[], 0)
  }

  function RunningJobs(r: Registry): set<JobId> {
    set id | id in r.listed && id in r.jobs && r.jobs[id].status == Running
  }

  datatype Event =
    /** register and adoptRunning: both go through createJobEntry. */
    | Create(stamp: string, provenance: Option<Provenance>, hasCleanup: bool, hasSettled: bool)
    | Result(id: JobId, result: JobResult)
    /** The awaited call returned or threw; `settled` is how onSettled ends if this step calls it. */
    | TornDown(id: JobId, teardown: Ended, settled: Ended)
    | CleanedUp(id: JobId, cleanup: Ended, settled: Ended)
    | CancelJob(id: JobId)
    | CancelModelJob(id: JobId, reason: string)
    | CancelAll
    | Join(id: JobId)
    | JoinResumed(id: JobId)
    | MarkDelivered(id: JobId)
    | Evict(id: JobId)
    | Watch

  function SetJob(r: Registry, id: JobId, j: Job): Registry {
    r.(jobs := r.jobs[id := j])
  }

  function Inserted(r: Registry, id: JobId, j: Job): Registry {
    r.(counter := r.counter + 1, jobs := r.jobs[id := j], listed := r.listed + {id})
  }

  /** The started event, as the delegation budget and the summarizer's subscription see it. */
  function Announced(r: Registry, id: JobId, hasSettled: bool): Registry {
    r.(slots := r.slots + (if hasSettled then 1 else 0),
       since := if r.watching then r.since + {id} else r.since,
       index := if r.watching then r.index[id := r.nextIndex] else r.index,
       nextIndex := if r.watching then r.nextIndex + 1 else r.nextIndex)
  }

  function StepCreate(r: Registry, e: Event): Registry
    requires e.Create?
  {
    if |RunningJobs(r)| >= r.cap then r
    else
      var id := MakeId(e.stamp, r.counter + 1);
      Announced(Inserted(r, id, NewJob(e.provenance, e.hasCleanup, e.hasSettled)), id, e.hasSettled)
  }

  function StepResult(r: Registry, id: JobId, result: JobResult): Registry {
    if id !in r.listed || id !in r.jobs || r.jobs[id].status != Running then r
    else
      SetJob(r, id, OnResult(r.jobs[id], result)).(
        timers := r.timers + {id}, index := if r.watching then r.index - {id} else r.index)
  }

  /** The pipeline of j ended with this step, and j holds a delegation slot. */
  predicate Releases(j: Job, k: Job) {
    j.hasSettled && j.stage != Finished && k.stage == Finished
  }

  /** A step of one job that may release its slot. */
  function StepPipeline(r: Registry, id: JobId, j: Job): Registry
    requires id in r.jobs
  {
    SetJob(r, id, j).(slots := r.slots - (if Releases(r.jobs[id], j) then 1 else 0))
  }

  function StepTornDown(r: Registry, id: JobId, teardown: Ended, settled: Ended): Registry {
    if id in r.jobs then StepPipeline(r, id, OnTornDown(r.jobs[id], teardown, settled)) else r
  }

  function StepCleanedUp(r: Registry, id: JobId, cleanup: Ended, settled: Ended): Registry {
    if id in r.jobs then StepPipeline(r, id, OnCleanedUp(r.jobs[id], cleanup, settled)) else r
  }

  function StepCancel(r: Registry, id: JobId): Registry {
    if id in r.listed && id in r.jobs then SetJob(r, id, OnCancel(r.jobs[id], Explicit, None)) else r
  }

  function StepCancelModel(r: Registry, id: JobId, reason: string): Registry {
    if id in r.listed && id in r.jobs && r.jobs[id].provenance == ByModel then
      SetJob(r, id, OnCancel(r.jobs[id], Explicit, Some(reason)))
    else r
  }

  /** The jobs with the cascade recorded on every listed one but those still left. */
  function Cascaded(r: Registry, left: set<JobId>): map<JobId, Job> {
    map id | id in r.jobs ::
      if id in r.listed && id !in left then OnCancel(r.jobs[id], ByCascade, None) else r.jobs[id]
  }

  function StepCancelAll(r: Registry): Registry {
    r.(jobs := Cascaded(r, {}))
  }

  function StepJoin(r: Registry, id: JobId): Registry {
    if id in r.listed && id in r.jobs then SetJob(r, id, r.jobs[id].(joiners := r.jobs[id].joiners + 1)) else r
  }

  function StepJoinResumed(r: Registry, id: JobId): Registry {
    if id in r.jobs then SetJob(r, id, OnJoined(r.jobs[id])) else r
  }

  function StepDelivered(r: Registry, id: JobId): Registry {
    if id in r.listed && id in r.jobs then SetJob(r, id, OnDelivered(r.jobs[id])) else r
  }

  function StepEvict(r: Registry, id: JobId): Registry {
    if id in r.timers then r.(timers := r.timers - {id}, listed := r.listed - {id}) else r
  }

  function StepWatch(r: Registry): Registry {
    if r.watching then r else r.(watching := true, since := {}, index := map[], nextIndex := 0)
  }

  function Step(r: Registry, e: Event): Registry {
    match e
    case Create(_, _, _, _) => StepCreate(r, e)
    case Result(id, result) => StepResult(r, id, result)
    case TornDown(id, teardown, settled) => StepTornDown(r, id, teardown, settled)
    case CleanedUp(id, cleanup, settled) => StepCleanedUp(r, id, cleanup, settled)
    case CancelJob(id) => StepCancel(r, id)
    case CancelModelJob(id, reason) => StepCancelModel(r, id, reason)
    case CancelAll => StepCancelAll(r)
    case Join(id) => StepJoin(r, id)
    case JoinResumed(id) => StepJoinResumed(r, id)
    case MarkDelivered(id) => StepDelivered(r, id)
    case Evict(id) => StepEvict(r, id)
    case Watch => StepWatch(r)
  }

  function Run(r: Registry, es: seq<Event>): Registry
    decreases |es|
  {
    if es == [] then r else Run(Step(r, es[0]), es[1..])
  }
}
