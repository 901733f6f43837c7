/** What holds of every job and of the whole registry after any interleaving of steps. */
module JobProofs {
  import opened Wrappers
  import opened JobModel

  // ----- the trace and the pipeline of one job

  /** After its terminal record a job only gathers joined and delivered records with the same status. */
  ghost predicate OnlyVisits(log: seq<Record>, status: Status) {
    forall i | 0 <= i < |log| :: log[i] == JoinedRecord(status) || log[i] == DeliveredRecord(status)
  }

  /** started; then at most one terminal record; then only joined and delivered records of that status. */
  ghost predicate TraceLanguage(log: seq<Record>, status: Status) {
    && |log| >= 1 && log[0] == StartedRecord
    && if status == Running then |log| == 1
       else |log| >= 2 && log[1].EndedRecord? && log[1].status == status && OnlyVisits(log[2..], status)
  }

  /** The calls of a complete pipeline, in order. */
  function FullPipeline(j: Job, r: JobResult): seq<Call> {
    [Settle(r), Teardown] + (if j.hasCleanup then [Cleanup] else []) + (if j.hasSettled then [Release] else [])
  }

  function CallsAt(j: Job, r: JobResult): seq<Call> {
    match j.stage
    case Active => []
    case TearingDown => [Settle(r), Teardown]
    case CleaningUp => [Settle(r), Teardown, Cleanup]
    case Finished => FullPipeline(j, r)
  }

  ghost predicate JobSound(j: Job) {
    && TraceLanguage(j.log, j.status)
    && (j.stage == Active <==> j.status == Running)
    && (j.stage == Active || j.stage == TearingDown ==> j.caught == [])
    && if j.status == Running then j.result == None && j.promise == None && j.calls == []
       else
         && j.result.Some? && j.promise == j.result && j.status == StatusFromResult(j.result.value.status)
         && (j.stage == CleaningUp ==> j.hasCleanup)
         && j.calls == CallsAt(j, j.result.value)
  }

  lemma ReleasedWhenFinished(j: Job)
    requires JobSound(j) && j.status != Running
    ensures Release in j.calls <==> j.stage == Finished && j.hasSettled
  {
    var r := j.result.value;
    assert j.calls == CallsAt(j, r);
    assert j.stage == Finished && j.hasSettled ==> j.calls[|j.calls| - 1] == Release;
  }

  /** However many callbacks arrive: the calls made so far are a prefix of the one complete pipeline, so each call
      is made at most once and in that order. */
  lemma PipelineOnce(j: Job)
    requires JobSound(j) && j.status != Running
    ensures j.calls <= FullPipeline(j, j.result.value)
    ensures forall a, b | 0 <= a < b < |j.calls| :: j.calls[a] != j.calls[b]
    ensures Release in j.calls <==> j.stage == Finished && j.hasSettled
  {
    ReleasedWhenFinished(j);
    var r := j.result.value;
    var full := FullPipeline(j, r);
    assert full == [Settle(r), Teardown] +
                   ((if j.hasCleanup then [Cleanup] else []) + (if j.hasSettled then [Release] else []));
    assert full[0] == Settle(r) && full[1] == Teardown && (j.hasCleanup ==> full[2] == Cleanup);
  }

  lemma VisitAppended(log: seq<Record>, status: Status, v: Record)
    requires TraceLanguage(log, status) && status != Running
    requires v == JoinedRecord(status) || v == DeliveredRecord(status)
    ensures TraceLanguage(log + [v], status)
  {
    assert (log + [v])[2..] == log[2..] + [v];
  }

  /** Every step of a job keeps it sound; the two steps of the pipeline follow below. */
  lemma JobStepSound(j: Job, r: JobResult, source: Source, reason: Option<string>)
    requires JobSound(j)
    ensures JobSound(OnResult(j, r))
    ensures JobSound(OnCancel(j, source, reason)) && JobSound(OnJoined(j)) && JobSound(OnDelivered(j))
  {
    if j.status == Running {
      var e := Ending(j, StatusFromResult(r.status));
      assert (j.log + [e])[2..] == [];
    } else {
      VisitAppended(j.log, j.status, JoinedRecord(j.status));
      VisitAppended(j.log, j.status, DeliveredRecord(j.status));
    }
  }

  /** k is j after teardown, or after cleanup, with whatever outcomes. */
  ghost predicate PipelineStep(j: Job, k: Job) {
    exists first, settled :: k == OnTornDown(j, first, settled) || k == OnCleanedUp(j, first, settled)
  }

  lemma TornDownSound(j: Job, teardown: Ended, settled: Ended)
    requires JobSound(j)
    ensures var k := OnTornDown(j, teardown, settled);
      JobSound(k) && k.status == j.status && k.hasSettled == j.hasSettled
  {
  }

  lemma CleanedUpSound(j: Job, cleanup: Ended, settled: Ended)
    requires JobSound(j)
    ensures var k := OnCleanedUp(j, cleanup, settled);
      JobSound(k) && k.status == j.status && k.hasSettled == j.hasSettled
  {
  }

  // ----- job ids never repeat

  lemma {:induction false} DecimalChars(n: nat)
    ensures |Decimal(n)| >= 1 && '-' !in Decimal(n)
  {
    if n >= 10 {
      DecimalChars(n / 10);
    }
  }

  lemma {:induction false} DecimalInjective(m: nat, n: nat)
    requires Decimal(m) == Decimal(n)
    ensures m == n
  {
    DecimalChars(m / 10);
    DecimalChars(n / 10);
    if m >= 10 && n >= 10 {
      var a, b := Decimal(m / 10), Decimal(n / 10);
      assert (a + [Digit(m % 10)])[..|a|] == a && (b + [Digit(n % 10)])[..|b|] == b;
      assert Decimal(m)[|a|] == Digit(m % 10) && Decimal(n)[|b|] == Digit(n % 10);
      DecimalInjective(m / 10, n / 10);
    } else if m < 10 && n < 10 {
      assert Decimal(m)[0] == Decimal(n)[0];
    }
  }

  /** The counter can be read back from an id: two ids with different counters differ whatever the clock said. */
  lemma MakeIdInjective(s: string, m: nat, t: string, n: nat)
    requires MakeId(s, m) == MakeId(t, n)
    ensures m == n
  {
    DecimalChars(m);
    DecimalChars(n);
    SameTail("bg-" + s, Decimal(m), "bg-" + t, Decimal(n));
    DecimalInjective(m, n);
  }

  lemma SameTail(p: string, a: string, q: string, b: string)
    requires p + "-" + a == q + "-" + b && '-' !in a && '-' !in b
    ensures a == b
  {
    var x := p + "-" + a;
    var y := q + "-" + b;
    assert x[|p|] == '-' && y[|q|] == '-';
    assert x[|p| + 1..] == a && y[|q| + 1..] == b;
    forall k | |p| < k < |x| ensures x[k] != '-' {
      assert x[k] == a[k - |p| - 1];
    }
    forall k | |q| < k < |y| ensures y[k] != '-' {
      assert y[k] == b[k - |q| - 1];
    }
    assert |p| == |q|;
  }

  // ----- the registry

  function HoldsSlot(j: Job): bool {
    j.hasSettled && Release !in j.calls
  }

  function Holders(r: Registry): set<JobId> {
    set id | id in r.jobs && HoldsSlot(r.jobs[id])
  }

  ghost predicate Numbered(counter: nat, id: JobId) {
    exists stamp: string, n: nat :: n <= counter && id == MakeId(stamp, n)
  }

  /** Every job is sound, has an id below the counter, and is listed and safe from eviction while it runs. */
  ghost predicate EntrySound(r: Registry, id: JobId)
    requires id in r.jobs
  {
    && JobSound(r.jobs[id]) && Numbered(r.counter, id)
    && (r.jobs[id].status == Running ==> id in r.listed && id !in r.timers)
  }

  ghost predicate Entries(r: Registry) {
    && r.listed <= r.jobs.Keys && r.timers <= r.jobs.Keys && r.since <= r.jobs.Keys
    && forall id | id in r.jobs :: EntrySound(r, id)
  }

  ghost predicate Counted(r: Registry) {
    |RunningJobs(r)| <= (if r.cap > 0 then r.cap else 0) && r.slots == |Holders(r)|
  }

  ghost predicate Indexed(r: Registry) {
    && (r.watching ==> r.index.Keys == RunningJobs(r) * r.since)
    && (forall id | id in r.index :: r.index[id] < r.nextIndex)
    && (forall a, b | a in r.index && b in r.index && a != b :: r.index[a] != r.index[b])
  }

  ghost predicate Sound(r: Registry) {
    Entries(r) && Counted(r) && Indexed(r)
  }

  lemma NewIdIsNew(r: Registry, stamp: string)
    requires Entries(r)
    ensures MakeId(stamp, r.counter + 1) !in r.jobs
  {
    var id := MakeId(stamp, r.counter + 1);
    if id in r.jobs {
      assert EntrySound(r, id);
      var s: string, n: nat :| n <= r.counter && id == MakeId(s, n);
      MakeIdInjective(s, n, stamp, r.counter + 1);
      assert false;
    }
  }

  /** One job changes: the running jobs are as before, less that job if it stopped running. */
  lemma RunningAfter(r: Registry, id: JobId, j: Job)
    requires Entries(r) && id in r.jobs && (j.status == r.jobs[id].status || j.status != Running)
    ensures RunningJobs(SetJob(r, id, j)) == if j.status == Running then RunningJobs(r) else RunningJobs(r) - {id}
  {
    assert EntrySound(r, id);
  }

  lemma HoldersAfter(r: Registry, id: JobId, j: Job)
    requires id in r.jobs && (HoldsSlot(j) ==> HoldsSlot(r.jobs[id]))
    ensures |Holders(SetJob(r, id, j))| ==
              |Holders(r)| - (if HoldsSlot(r.jobs[id]) && !HoldsSlot(j) then 1 else 0)
  {
    var h := Holders(SetJob(r, id, j));
    if HoldsSlot(r.jobs[id]) && !HoldsSlot(j) {
      assert h == Holders(r) - {id};
    } else {
      assert h == Holders(r);
    }
  }

  lemma EntriesAfter(r: Registry, id: JobId, j: Job)
    requires Entries(r) && id in r.jobs && JobSound(j) && (j.status == r.jobs[id].status || j.status != Running)
    ensures Entries(SetJob(r, id, j))
  {
    var r1 := SetJob(r, id, j);
    forall x | x in r1.jobs ensures EntrySound(r1, x) {
      assert EntrySound(r, x);
    }
  }

  /** A step of one job that keeps its status and its slot keeps the registry sound. */
  lemma QuietJobSound(r: Registry, id: JobId, j: Job)
    requires Sound(r) && id in r.jobs && JobSound(j)
    requires j.status == r.jobs[id].status && HoldsSlot(j) == HoldsSlot(r.jobs[id])
    ensures Sound(SetJob(r, id, j))
  {
    EntriesAfter(r, id, j);
    RunningAfter(r, id, j);
    HoldersAfter(r, id, j);
    assert EntrySound(r, id);
    assert RunningJobs(SetJob(r, id, j)) == RunningJobs(r);
  }

  /** The slot count is read by nothing but its own equation. */
  lemma SlotsOnly(r: Registry, n: int)
    ensures var r1 := r.(slots := n);
      && RunningJobs(r1) == RunningJobs(r) && Holders(r1) == Holders(r)
      && (Entries(r) ==> Entries(r1)) && (Indexed(r) ==> Indexed(r1))
  {
    var r1 := r.(slots := n);
    assert RunningJobs(r1) == RunningJobs(r) && Holders(r1) == Holders(r);
    forall id | id in r.jobs ensures EntrySound(r, id) ==> EntrySound(r1, id) {
    }
  }

  /** A job gives up its slot exactly when the step counts it as released. */
  lemma SlotStepSound(r: Registry, id: JobId, k: Job)
    requires Sound(r) && id in r.jobs && JobSound(k) && k.status == r.jobs[id].status
    requires HoldsSlot(k) ==> HoldsSlot(r.jobs[id])
    requires Releases(r.jobs[id], k) <==> HoldsSlot(r.jobs[id]) && !HoldsSlot(k)
    ensures Sound(StepPipeline(r, id, k))
  {
    EntriesAfter(r, id, k);
    RunningAfter(r, id, k);
    HoldersAfter(r, id, k);
    assert EntrySound(r, id);
    assert RunningJobs(SetJob(r, id, k)) == RunningJobs(r);
    SlotsOnly(SetJob(r, id, k), StepPipeline(r, id, k).slots);
  }

  lemma PipelineSound(r: Registry, id: JobId, k: Job)
    requires Sound(r) && id in r.jobs
    requires PipelineStep(r.jobs[id], k)
    ensures Sound(StepPipeline(r, id, k))
  {
    assert EntrySound(r, id);
    PipelineJobSound(r.jobs[id], k);
    ReleaseKept(r.jobs[id], k);
    SlotStepSound(r, id, k);
  }

  lemma PipelineJobSound(j: Job, k: Job)
    requires JobSound(j) && PipelineStep(j, k)
    ensures JobSound(k) && k.status == j.status && k.hasSettled == j.hasSettled
  {
    var first, settled :| k == OnTornDown(j, first, settled) || k == OnCleanedUp(j, first, settled);
    var torn, cleaned := OnTornDown(j, first, settled), OnCleanedUp(j, first, settled);
    assert JobSound(torn) && torn.status == j.status && torn.hasSettled == j.hasSettled by {
      TornDownSound(j, first, settled);
    }
    assert JobSound(cleaned) && cleaned.status == j.status && cleaned.hasSettled == j.hasSettled by {
      CleanedUpSound(j, first, settled);
    }
    assert k == torn || k == cleaned;
  }

  /** The slot is given up in exactly the step that ends the pipeline. */
  lemma ReleaseKept(j: Job, k: Job)
    requires JobSound(j) && PipelineStep(j, k)
    ensures k.status == j.status && (HoldsSlot(k) ==> HoldsSlot(j))
    ensures Releases(j, k) <==> HoldsSlot(j) && !HoldsSlot(k)
  {
    PipelineJobSound(j, k);
    if j.status != Running {
      ReleasedWhenFinished(j);
      ReleasedWhenFinished(k);
    }
  }

  lemma CreateEntries(r: Registry, e: Event)
    requires Entries(r) && e.Create? && |RunningJobs(r)| < r.cap
    ensures Entries(StepCreate(r, e))
  {
    var r1 := StepCreate(r, e);
    var id := MakeId(e.stamp, r.counter + 1);
    NewIdIsNew(r, e.stamp);
    forall x | x in r1.jobs ensures EntrySound(r1, x) {
      if x != id {
        assert EntrySound(r, x);
        var s: string, n: nat :| n <= r.counter && x == MakeId(s, n);
        assert n <= r1.counter;
      } else {
        assert Numbered(r1.counter, id);
      }
    }
  }

  lemma AddedJob(r: Registry, r1: Registry, id: JobId, j: Job)
    requires id !in r.jobs && r.listed <= r.jobs.Keys && j.status == Running
    requires r1.jobs == r.jobs[id := j] && r1.listed == r.listed + {id}
    ensures RunningJobs(r1) == RunningJobs(r) + {id} && id !in RunningJobs(r)
    ensures Holders(r1) == Holders(r) + (if HoldsSlot(j) then {id} else {}) && id !in Holders(r)
  {
  }

  lemma CreateCounts(r: Registry, e: Event)
    requires Entries(r) && Counted(r) && e.Create? && |RunningJobs(r)| < r.cap
    ensures var r1 := StepCreate(r, e); var id := MakeId(e.stamp, r.counter + 1);
      Counted(r1) && RunningJobs(r1) == RunningJobs(r) + {id} && id !in RunningJobs(r)
  {
    NewIdIsNew(r, e.stamp);
    var j := NewJob(e.provenance, e.hasCleanup, e.hasSettled);
    assert HoldsSlot(j) == e.hasSettled;
    AddedJob(r, StepCreate(r, e), MakeId(e.stamp, r.counter + 1), j);
  }

  lemma CreateSound(r: Registry, e: Event)
    requires Sound(r) && e.Create?
    ensures Sound(StepCreate(r, e))
  {
    if |RunningJobs(r)| < r.cap {
      var id := MakeId(e.stamp, r.counter + 1);
      CreateEntries(r, e);
      CreateCounts(r, e);
      NewIdIsNew(r, e.stamp);
      CreateIndexes(r, StepCreate(r, e), id);
    }
  }

  lemma CreateStep(r: Registry, stamp: string, provenance: Option<Provenance>, hasCleanup: bool, hasSettled: bool)
    requires Sound(r)
    ensures var e := Create(stamp, provenance, hasCleanup, hasSettled);
      Step(r, e) == StepCreate(r, e) && Sound(StepCreate(r, e))
    ensures MakeId(stamp, r.counter + 1) !in r.jobs
  {
    CreateSound(r, Create(stamp, provenance, hasCleanup, hasSettled));
    NewIdIsNew(r, stamp);
  }

  lemma CreateIndexes(r: Registry, r1: Registry, id: JobId)
    requires Indexed(r) && id !in r.since && r1.watching == r.watching
    requires RunningJobs(r1) == RunningJobs(r) + {id}
    requires r1.since == (if r.watching then r.since + {id} else r.since)
    requires r1.index == (if r.watching then r.index[id := r.nextIndex] else r.index)
    requires r1.nextIndex == (if r.watching then r.nextIndex + 1 else r.nextIndex)
    ensures Indexed(r1)
  {
  }

  lemma ResultCounts(r: Registry, id: JobId, result: JobResult)
    requires Entries(r) && Counted(r) && id in r.jobs && r.jobs[id].status == Running
    ensures var r1 := SetJob(r, id, OnResult(r.jobs[id], result));
      Counted(r1) && RunningJobs(r1) == RunningJobs(r) - {id}
  {
    var j := OnResult(r.jobs[id], result);
    RunningAfter(r, id, j);
    HoldersAfter(r, id, j);
  }

  /** The eviction timer of a job that is not running, and the watcher dropping it. */
  lemma ScheduleSound(r: Registry, id: JobId)
    requires Entries(r) && id in r.jobs && r.jobs[id].status != Running
    ensures var r1 := r.(timers := r.timers + {id}, index := if r.watching then r.index - {id} else r.index);
      Entries(r1) && RunningJobs(r1) == RunningJobs(r) && Holders(r1) == Holders(r)
  {
    var r1 := r.(timers := r.timers + {id}, index := if r.watching then r.index - {id} else r.index);
    forall x | x in r1.jobs ensures EntrySound(r1, x) {
      assert EntrySound(r, x);
    }
    assert RunningJobs(r1) == RunningJobs(r) && Holders(r1) == Holders(r);
  }

  lemma ResultSound(r: Registry, id: JobId, result: JobResult)
    requires Sound(r)
    ensures Sound(StepResult(r, id, result))
  {
    if id in r.listed && r.jobs[id].status == Running {
      var j := OnResult(r.jobs[id], result);
      assert EntrySound(r, id);
      JobStepSound(r.jobs[id], result, Explicit, None);
      EntriesAfter(r, id, j);
      ResultCounts(r, id, result);
      ScheduleSound(SetJob(r, id, j), id);
    }
  }

  lemma CancelKeeps(j: Job)
    requires JobSound(j)
    ensures var k := OnCancel(j, ByCascade, None);
      JobSound(k) && k.status == j.status && HoldsSlot(k) == HoldsSlot(j)
  {
    JobStepSound(j, JobResult(Idle, ""), ByCascade, None);
  }

  lemma CancelAllSound(r: Registry)
    requires Sound(r)
    ensures Sound(StepCancelAll(r))
  {
    var r1 := StepCancelAll(r);
    forall x | x in r.jobs
      ensures EntrySound(r1, x)
      ensures r1.jobs[x].status == r.jobs[x].status && HoldsSlot(r1.jobs[x]) == HoldsSlot(r.jobs[x])
    {
      assert EntrySound(r, x);
      CancelKeeps(r.jobs[x]);
    }
    assert RunningJobs(r1) == RunningJobs(r);
    assert Holders(r1) == Holders(r);
  }

  lemma EvictSound(r: Registry, id: JobId)
    requires Sound(r)
    ensures Sound(StepEvict(r, id))
  {
    if id in r.timers {
      var r1 := StepEvict(r, id);
      forall x | x in r1.jobs ensures EntrySound(r1, x) {
        assert EntrySound(r, x);
      }
      assert EntrySound(r, id);
      assert RunningJobs(r1) == RunningJobs(r) && Holders(r1) == Holders(r);
    }
  }

  /** No running job is ever evicted. */
  lemma EvictKeepsRunning(r: Registry, id: JobId)
    requires Entries(r)
    ensures RunningJobs(StepEvict(r, id)) == RunningJobs(r)
  {
    if id in r.timers {
      assert EntrySound(r, id);
    }
  }

  lemma WatchSound(r: Registry)
    requires Sound(r)
    ensures Sound(StepWatch(r))
  {
    var r1 := StepWatch(r);
    forall x | x in r1.jobs ensures EntrySound(r1, x) {
      assert EntrySound(r, x);
    }
    assert RunningJobs(r1) == RunningJobs(r) && Holders(r1) == Holders(r);
  }

  lemma PipelineStepSound(r: Registry, e: Event)
    requires Sound(r) && (e.TornDown? || e.CleanedUp?)
    ensures Sound(Step(r, e))
  {
    if e.id in r.jobs {
      var j := r.jobs[e.id];
      var k := if e.TornDown? then OnTornDown(j, e.teardown, e.settled) else OnCleanedUp(j, e.cleanup, e.settled);
      assert PipelineStep(j, k);
      PipelineSound(r, e.id, k);
    }
  }

  /** Steps that touch one job's log, joiners or cancel source. */
  ghost predicate Quiet(j: Job, k: Job) {
    k.status == j.status && k.calls == j.calls && k.hasSettled == j.hasSettled
  }

  predicate IsQuiet(e: Event, id: JobId) {
    || e == CancelJob(id) || e == Join(id) || e == JoinResumed(id) || e == MarkDelivered(id)
    || (e.CancelModelJob? && e.id == id)
  }

  lemma QuietStepShape(r: Registry, e: Event, id: JobId)
    requires IsQuiet(e, id) && Step(r, e) != r
    ensures id in r.jobs && id in Step(r, e).jobs && Step(r, e) == SetJob(r, id, Step(r, e).jobs[id])
    ensures Quiet(r.jobs[id], Step(r, e).jobs[id])
  {
  }

  lemma QuietStepJob(r: Registry, e: Event, id: JobId)
    requires IsQuiet(e, id) && Step(r, e) != r && id in r.jobs && JobSound(r.jobs[id])
    ensures id in Step(r, e).jobs && JobSound(Step(r, e).jobs[id])
  {
    var reason := if e.CancelModelJob? then Some(e.reason) else None;
    JobStepSound(r.jobs[id], JobResult(Idle, ""), Explicit, reason);
  }

  lemma QuietStepSound(r: Registry, e: Event, id: JobId)
    requires Sound(r) && IsQuiet(e, id)
    ensures Sound(Step(r, e))
  {
    if Step(r, e) != r {
      QuietStepShape(r, e, id);
      assert EntrySound(r, id);
      QuietStepJob(r, e, id);
      QuietJobSound(r, id, Step(r, e).jobs[id]);
    }
  }

  lemma TornDownStep(r: Registry, id: JobId, teardown: Ended, settled: Ended)
    requires Sound(r)
    ensures Step(r, TornDown(id, teardown, settled)) == StepTornDown(r, id, teardown, settled)
    ensures Sound(StepTornDown(r, id, teardown, settled))
  {
    PipelineStepSound(r, TornDown(id, teardown, settled));
  }

  lemma CleanedUpStep(r: Registry, id: JobId, cleanup: Ended, settled: Ended)
    requires Sound(r)
    ensures Step(r, CleanedUp(id, cleanup, settled)) == StepCleanedUp(r, id, cleanup, settled)
    ensures Sound(StepCleanedUp(r, id, cleanup, settled))
  {
    PipelineStepSound(r, CleanedUp(id, cleanup, settled));
  }

  lemma JoinResumedStep(r: Registry, id: JobId)
    requires Sound(r)
    ensures Step(r, JoinResumed(id)) == StepJoinResumed(r, id) && Sound(StepJoinResumed(r, id))
  {
    QuietStepSound(r, JoinResumed(id), id);
  }

  lemma StepSound(r: Registry, e: Event)
    requires Sound(r)
    ensures Sound(Step(r, e))
  {
    match e
    case Create(_, _, _, _) => CreateSound(r, e);
    case Result(id, result) => ResultSound(r, id, result);
    case CancelAll => CancelAllSound(r);
    case Evict(id) => EvictSound(r, id);
    case Watch => WatchSound(r);
    case TornDown(_, _, _) => PipelineStepSound(r, e);
    case CleanedUp(_, _, _) => PipelineStepSound(r, e);
    case CancelJob(id) => QuietStepSound(r, e, id);
    case CancelModelJob(id, _) => QuietStepSound(r, e, id);
    case Join(id) => QuietStepSound(r, e, id);
    case JoinResumed(id) => QuietStepSound(r, e, id);
    case MarkDelivered(id) => QuietStepSound(r, e, id);
  }

  lemma {:induction false} RunSound(r: Registry, es: seq<Event>)
    requires Sound(r)
    ensures Sound(Run(r, es))
    decreases |es|
  {
    if es != [] {
      StepSound(r, es[0]);
      RunSound(Step(r, es[0]), es[1..]);
    }
  }

  lemma InitialSound(cap: int, seed: nat)
    ensures Sound(Initial(cap, seed))
  {
    assert RunningJobs(Initial(cap, seed)) == {} && Holders(Initial(cap, seed)) == {};
  }

  // ----- the theorems over runs

  /** Every interleaving: each job's trace is in the language, and its calls are a prefix of the one pipeline. */
  lemma {:induction false} RunsAreLawful(cap: int, seed: nat, es: seq<Event>, id: JobId)
    requires id in Run(Initial(cap, seed), es).jobs
    ensures var j := Run(Initial(cap, seed), es).jobs[id];
      && TraceLanguage(j.log, j.status)
      && (j.status == Running ==> j.calls == [])
      && (j.status != Running ==> j.result.Some? && j.calls <= FullPipeline(j, j.result.value))
  {
    InitialSound(cap, seed);
    RunSound(Initial(cap, seed), es);
    assert EntrySound(Run(Initial(cap, seed), es), id);
    var j := Run(Initial(cap, seed), es).jobs[id];
    if j.status != Running {
      PipelineOnce(j);
    }
  }

  /** Every interleaving: the cap holds, running jobs are listed and not due for eviction, slots held are exactly
      the promoted jobs not yet released, and the watcher's index is exactly the running jobs it saw start. */
  lemma {:induction false} RunsAreSafe(cap: int, seed: nat, es: seq<Event>)
    ensures var r := Run(Initial(cap, seed), es);
      && |RunningJobs(r)| <= (if cap > 0 then cap else 0)
      && (forall id | id in r.jobs && r.jobs[id].status == Running :: id in r.listed && id !in r.timers)
      && r.slots == |Holders(r)|
      && (r.watching ==> r.index.Keys == RunningJobs(r) * r.since)
  {
    InitialSound(cap, seed);
    RunSound(Initial(cap, seed), es);
    CapFixed(Initial(cap, seed), es);
    var r := Run(Initial(cap, seed), es);
    assert forall id | id in r.jobs :: EntrySound(r, id);
  }

  lemma {:induction false} CapFixed(r: Registry, es: seq<Event>)
    ensures Run(r, es).cap == r.cap
    decreases |es|
  {
    if es != [] {
      CapFixed(Step(r, es[0]), es[1..]);
    }
  }

  /** k is j later: logs and calls only grew, and a terminal status came with its result for good. */
  ghost predicate Later(j: Job, k: Job) {
    && j.log <= k.log && j.calls <= k.calls && j.caught <= k.caught
    && (j.status != Running ==> k.status == j.status && k.result == j.result && k.promise == j.promise)
  }

  lemma PipelineLater(j: Job, first: Ended, settled: Ended)
    ensures Later(j, OnTornDown(j, first, settled)) && Later(j, OnCleanedUp(j, first, settled))
  {
  }

  lemma JobStepLater(j: Job, r: JobResult, source: Source, reason: Option<string>)
    ensures Later(j, OnResult(j, r))
    ensures Later(j, OnCancel(j, source, reason)) && Later(j, OnJoined(j)) && Later(j, OnDelivered(j))
  {
  }

  lemma PipelineStepLater(r: Registry, e: Event, id: JobId)
    requires id in r.jobs && (e.TornDown? || e.CleanedUp?)
    ensures id in Step(r, e).jobs && Later(r.jobs[id], Step(r, e).jobs[id])
  {
    PipelineLater(r.jobs[id], if e.TornDown? then e.teardown else e.cleanup, e.settled);
  }

  lemma ResultLater(r: Registry, e: Event, id: JobId)
    requires id in r.jobs && e.Result?
    ensures id in Step(r, e).jobs && Later(r.jobs[id], Step(r, e).jobs[id])
  {
    JobStepLater(r.jobs[id], e.result, Explicit, None);
  }

  lemma QuietLater(r: Registry, e: Event, target: JobId, id: JobId)
    requires id in r.jobs && IsQuiet(e, target)
    ensures id in Step(r, e).jobs && Later(r.jobs[id], Step(r, e).jobs[id])
  {
    var reason := if e.CancelModelJob? then Some(e.reason) else None;
    JobStepLater(r.jobs[id], JobResult(Idle, ""), Explicit, reason);
  }

  lemma CreateLater(r: Registry, e: Event, id: JobId)
    requires id in r.jobs && e.Create? && MakeId(e.stamp, r.counter + 1) !in r.jobs
    ensures id in StepCreate(r, e).jobs && StepCreate(r, e).jobs[id] == r.jobs[id]
  {
    var newId := MakeId(e.stamp, r.counter + 1);
    InsertedKeeps(r, newId, NewJob(e.provenance, e.hasCleanup, e.hasSettled), e.hasSettled, id);
  }

  lemma InsertedKeeps(r: Registry, newId: JobId, j: Job, hasSettled: bool, id: JobId)
    requires newId !in r.jobs && id in r.jobs
    ensures var r1 := Announced(Inserted(r, newId, j), newId, hasSettled);
      id in r1.jobs && r1.jobs[id] == r.jobs[id]
  {
  }

  lemma CancelAllLater(r: Registry, id: JobId)
    requires id in r.jobs
    ensures id in Step(r, CancelAll).jobs && Later(r.jobs[id], Step(r, CancelAll).jobs[id])
  {
    JobStepLater(r.jobs[id], JobResult(Idle, ""), ByCascade, None);
  }

  /** No entry is ever overwritten: after a step every job is still there, only later. */
  lemma StepKeepsResults(r: Registry, e: Event, id: JobId)
    requires Sound(r) && id in r.jobs
    ensures id in Step(r, e).jobs && Later(r.jobs[id], Step(r, e).jobs[id])
  {
    assert e.Create? ==> MakeId(e.stamp, r.counter + 1) !in r.jobs by {
      if e.Create? {
        NewIdIsNew(r, e.stamp);
      }
    }
    JobLater(r, e, id);
  }

  lemma JobLater(r: Registry, e: Event, id: JobId)
    requires id in r.jobs && (e.Create? ==> MakeId(e.stamp, r.counter + 1) !in r.jobs)
    ensures id in Step(r, e).jobs && Later(r.jobs[id], Step(r, e).jobs[id])
  {
    match e
    case Create(_, _, _, _) => CreateLater(r, e, id);
    case CancelAll => CancelAllLater(r, id);
    case Evict(_) =>
    case Watch =>
    case TornDown(_, _, _) => PipelineStepLater(r, e, id);
    case CleanedUp(_, _, _) => PipelineStepLater(r, e, id);
    case Result(_, _) => ResultLater(r, e, id);
    case _ => QuietLater(r, e, e.id, id);
  }

  lemma {:induction false} RunKeepsResults(r: Registry, es: seq<Event>, id: JobId)
    requires Sound(r) && id in r.jobs
    ensures id in Run(r, es).jobs
    ensures Later(r.jobs[id], Run(r, es).jobs[id])
    decreases |es|
  {
    if es != [] {
      StepSound(r, es[0]);
      StepKeepsResults(r, es[0], id);
      RunKeepsResults(Step(r, es[0]), es[1..], id);
    }
  }

  /** What a join yields when it resumes. */
  function JoinValue(r: Registry, id: JobId): Option<JobResult> {
    if id in r.jobs && r.jobs[id].joiners > 0 then r.jobs[id].promise else None
  }

  /** Two joins of the same job, at any two points of a run, yield the same result. */
  lemma {:induction false} JoinsAgree(r: Registry, es: seq<Event>, id: JobId)
    requires Sound(r) && JoinValue(r, id).Some? && JoinValue(Run(r, es), id).Some?
    ensures JoinValue(Run(r, es), id) == JoinValue(r, id)
  {
    assert EntrySound(r, id);
    RunKeepsResults(r, es, id);
  }

  function Line(call: Call, ended: Ended): seq<Caught> {
    if ended.Threw? then [Caught(call, ended.error)] else []
  }

  /** The lines logged for the calls of the pipeline that threw, in order. */
  function Lines(j: Job, teardown: Ended, cleanup: Ended, settled: Ended): seq<Caught> {
    Line(Teardown, teardown) + (if j.hasCleanup then Line(Cleanup, cleanup) else [])
    + (if j.hasSettled then Line(Release, settled) else [])
  }

  /** Once a result has arrived, the pipeline makes all its calls and releases the slot whatever teardown, cleanup
      and onSettled do, and logs exactly the errors of those that threw, in order. */
  lemma PipelineReleases(j: Job, r: JobResult, teardown: Ended, cleanup: Ended, settled: Ended)
    requires JobSound(j) && j.status == Running
    ensures var j1 := OnCleanedUp(OnTornDown(OnResult(j, r), teardown, settled), cleanup, settled);
      && j1.stage == Finished && j1.calls == FullPipeline(j, r) && !HoldsSlot(j1)
      && j1.caught == Lines(j, teardown, cleanup, settled)
  {
    var full := FullPipeline(j, r);
    assert j.hasSettled ==> full[|full| - 1] == Release;
  }

  /** The model cannot cancel a job it does not own, and provenance defaults to the user. */
  lemma ModelCannotCancel(r: Registry, id: JobId, reason: string)
    requires id in r.jobs && r.jobs[id].provenance != ByModel
    ensures Step(r, CancelModelJob(id, reason)) == r
    ensures forall c, s :: NewJob(None, c, s).provenance == ByUser
  {
  }
}
