/** What the records of a job say about the run it went through: its provenance, its cancellation, its joins and
    deliveries, and when it leaves the registry. */
module JobRuns {
  import opened Wrappers
  import opened JobModel
  import opened JobProofs

  /** The registry before event n of the run. */
  function Before(cap: int, seed: nat, es: seq<Event>, n: nat): Registry
    requires n <= |es|
  {
    Run(Initial(cap, seed), es[..n])
  }

  lemma {:induction false} RunNext(r: Registry, es: seq<Event>, e: Event)
    ensures Run(r, es + [e]) == Step(Run(r, es), e)
    decreases |es|
  {
    if es == [] {
      assert [e][1..] == [];
      assert Run(r, [e]) == Run(Step(r, e), []);
    } else {
      assert (es + [e])[1..] == es[1..] + [e];
      RunNext(Step(r, es[0]), es[1..], e);
    }
  }

  lemma BeforeNext(cap: int, seed: nat, es: seq<Event>, n: nat)
    requires n < |es|
    ensures Before(cap, seed, es, n + 1) == Step(Before(cap, seed, es, n), es[n])
    ensures Sound(Before(cap, seed, es, n))
  {
    assert es[..n + 1] == es[..n] + [es[n]];
    RunNext(Initial(cap, seed), es[..n], es[n]);
    InitialSound(cap, seed);
    RunSound(Initial(cap, seed), es[..n]);
  }

  // ----- one step of one job

  /** The event cancels the job, which is running and, for a model's cancel, the model's own. */
  predicate Cancels(r: Registry, e: Event, id: JobId) {
    && id in r.jobs && r.jobs[id].status == Running
    && (e == CancelJob(id) || e == CancelAll
        || (e.CancelModelJob? && e.id == id && r.jobs[id].provenance == ByModel))
  }

  predicate Ends(r: Registry, e: Event, id: JobId) {
    e.Result? && e.id == id && id in r.jobs && r.jobs[id].status == Running
  }

  /** A delivery of a listed job that is over. */
  predicate Delivers(r: Registry, e: Event, id: JobId) {
    e == MarkDelivered(id) && id in r.jobs && id in r.listed && r.jobs[id].status != Running
  }

  predicate Joins(r: Registry, e: Event, id: JobId) {
    e == Join(id) && id in r.jobs && id in r.listed
  }

  /** A waiting join resumes: the job is over. */
  predicate Resumes(r: Registry, e: Event, id: JobId) {
    e == JoinResumed(id) && id in r.jobs && r.jobs[id].joiners > 0 && r.jobs[id].status != Running
  }

  /** The eviction timer of the job fires. */
  predicate Evicts(r: Registry, e: Event, id: JobId) {
    e == Evict(id) && id in r.timers
  }

  /** The event names this job, or all jobs. */
  predicate Names(e: Event, id: JobId) {
    e == CancelAll || (!e.Create? && !e.Watch? && !e.CancelAll? && e.id == id)
  }

  /** What an event that names job j does to it. */
  function Effect(j: Job, e: Event, listed: bool): Job {
    match e
    case Result(_, result) => if listed then OnResult(j, result) else j
    case TornDown(_, teardown, settled) => OnTornDown(j, teardown, settled)
    case CleanedUp(_, cleanup, settled) => OnCleanedUp(j, cleanup, settled)
    case CancelJob(_) => if listed then OnCancel(j, Explicit, None) else j
    case CancelModelJob(_, reason) =>
      if listed && j.provenance == ByModel then OnCancel(j, Explicit, Some(reason)) else j
    case CancelAll => if listed then OnCancel(j, ByCascade, None) else j
    case Join(_) => if listed then j.(joiners := j.joiners + 1) else j
    case JoinResumed(_) => OnJoined(j)
    case MarkDelivered(_) => if listed then OnDelivered(j) else j
    case _ => j
  }

  lemma NamedEffect(r: Registry, e: Event, id: JobId)
    requires id in r.jobs && Names(e, id)
    ensures id in Step(r, e).jobs && Step(r, e).jobs[id] == Effect(r.jobs[id], e, id in r.listed)
  {
  }

  lemma OtherEffect(r: Registry, e: Event, id: JobId)
    requires id in r.jobs && !Names(e, id) && (e.Create? ==> MakeId(e.stamp, r.counter + 1) !in r.jobs)
    ensures id in Step(r, e).jobs && Step(r, e).jobs[id] == r.jobs[id]
  {
    if e.Create? {
      CreateLater(r, e, id);
    }
  }

  /** A step changes a job only through an event that names it. */
  lemma StepEffect(r: Registry, e: Event, id: JobId)
    requires Sound(r) && id in r.jobs
    ensures id in Step(r, e).jobs
    ensures Step(r, e).jobs[id] == if Names(e, id) then Effect(r.jobs[id], e, id in r.listed) else r.jobs[id]
  {
    if Names(e, id) {
      NamedEffect(r, e, id);
    } else {
      if e.Create? {
        NewIdIsNew(r, e.stamp);
      }
      OtherEffect(r, e, id);
    }
  }

  /** What a step does to who owns a job and how it is to be cancelled. */
  ghost predicate Attributed(r: Registry, e: Event, id: JobId, j: Job, k: Job) {
    && k.provenance == j.provenance && k.hasCleanup == j.hasCleanup && k.hasSettled == j.hasSettled
    && (k.cancelSource ==
          if Cancels(r, e, id) then Some(if e == CancelAll then ByCascade else Explicit) else j.cancelSource)
    && (k.modelReason == if Cancels(r, e, id) && e.CancelModelJob? then Some(e.reason) else j.modelReason)
  }

  /** What a step does to a job's status and result, its joins and its trace. */
  ghost predicate Recorded(r: Registry, e: Event, id: JobId, j: Job, k: Job) {
    && (k.status == if Ends(r, e, id) then StatusFromResult(e.result.status) else j.status)
    && (k.result == if Ends(r, e, id) then Some(e.result) else j.result)
    && (k.joiners + (if Resumes(r, e, id) then 1 else 0) == j.joiners + (if Joins(r, e, id) then 1 else 0))
    && (k.log == j.log +
          if Ends(r, e, id) then [Ending(j, k.status)]
          else if Resumes(r, e, id) then [JoinedRecord(j.status)]
          else if Delivers(r, e, id) then [DeliveredRecord(j.status)]
          else [])
  }

  lemma EffectAttributed(r: Registry, e: Event, id: JobId)
    requires id in r.jobs && Names(e, id) && (r.jobs[id].status == Running ==> id in r.listed)
    ensures Attributed(r, e, id, r.jobs[id], Effect(r.jobs[id], e, id in r.listed))
  {
  }

  lemma EffectRecorded(r: Registry, e: Event, id: JobId)
    requires id in r.jobs && Names(e, id) && (r.jobs[id].status == Running ==> id in r.listed)
    requires r.jobs[id].promise.None? <==> r.jobs[id].status == Running
    ensures Recorded(r, e, id, r.jobs[id], Effect(r.jobs[id], e, id in r.listed))
  {
    var log := r.jobs[id].log;
    assert log + [] == log;
  }

  lemma UnnamedStays(r: Registry, e: Event, id: JobId)
    requires id in r.jobs && !Names(e, id)
    ensures Attributed(r, e, id, r.jobs[id], r.jobs[id]) && Recorded(r, e, id, r.jobs[id], r.jobs[id])
  {
    var log := r.jobs[id].log;
    assert log + [] == log;
  }

  lemma StepTold(r: Registry, e: Event, id: JobId)
    requires Sound(r) && id in r.jobs
    ensures id in Step(r, e).jobs
    ensures Attributed(r, e, id, r.jobs[id], Step(r, e).jobs[id])
    ensures Recorded(r, e, id, r.jobs[id], Step(r, e).jobs[id])
  {
    assert r.jobs[id].status == Running ==> id in r.listed by { assert EntrySound(r, id); }
    assert r.jobs[id].promise.None? <==> r.jobs[id].status == Running by { assert EntrySound(r, id); }
    StepEffect(r, e, id);
    if Names(e, id) {
      EffectAttributed(r, e, id);
      EffectRecorded(r, e, id);
    } else {
      UnnamedStays(r, e, id);
    }
  }

  /** The event made the entry id. */
  predicate Makes(r: Registry, e: Event, id: JobId) {
    e.Create? && |RunningJobs(r)| < r.cap && id == MakeId(e.stamp, r.counter + 1)
  }

  /** Below its cap the registry accepts the job: the entry is new, running and listed, and owned by whom the caller
      says, or by the user. Otherwise nothing happens. */
  lemma CreateMakes(r: Registry, e: Event)
    requires Sound(r) && e.Create?
    ensures var id := MakeId(e.stamp, r.counter + 1);
      if |RunningJobs(r)| >= r.cap then Step(r, e) == r
      else
        && id !in r.jobs && id in Step(r, e).jobs && Step(r, e).jobs.Keys == r.jobs.Keys + {id}
        && id in Step(r, e).listed && id !in Step(r, e).timers
        && var j := Step(r, e).jobs[id];
        && j.provenance == (if e.provenance.Some? then e.provenance.value else ByUser)
        && j.status == Running && j.log == [StartedRecord] && j.joiners == 0
        && j.cancelSource == None && j.modelReason == None
  {
    NewIdIsNew(r, e.stamp);
  }

  lemma OnlyCreateMakes(r: Registry, e: Event, id: JobId)
    requires Sound(r) && id !in r.jobs
    ensures id in Step(r, e).jobs <==> Makes(r, e, id)
    ensures id !in r.listed && id !in r.timers
  {
  }

  lemma EventListed(r: Registry, e: Event, id: JobId)
    requires id in r.jobs && !e.Create? && (r.jobs[id].status == Running ==> id in r.listed)
    ensures id in Step(r, e).listed <==> id in r.listed && !Evicts(r, e, id)
    ensures id in Step(r, e).timers <==>
              (id in r.timers || (Ends(r, e, id) && id in r.listed)) && !Evicts(r, e, id)
  {
  }

  /** An entry leaves the registry only when its eviction timer fires, and that is set when the job ends. */
  lemma StepListed(r: Registry, e: Event, id: JobId)
    requires Sound(r) && id in r.jobs
    ensures id in Step(r, e).listed <==> id in r.listed && !Evicts(r, e, id)
    ensures id in Step(r, e).timers <==> (id in r.timers || Ends(r, e, id)) && !Evicts(r, e, id)
  {
    assert r.jobs[id].status == Running ==> id in r.listed && id !in r.timers by { assert EntrySound(r, id); }
    if e.Create? {
      assert MakeId(e.stamp, r.counter + 1) !in r.jobs by { NewIdIsNew(r, e.stamp); }
    } else {
      EventListed(r, e, id);
    }
  }

  // ----- runs

  /** Of the numbers below n with property p, k is the last. */
  ghost predicate Last(p: nat -> bool, n: nat, k: nat) {
    k < n && p(k) && forall m: nat | k < m < n :: !p(m)
  }

  ghost predicate Never(p: nat -> bool, n: nat) {
    forall m: nat | m < n :: !p(m)
  }

  lemma LastNext(p: nat -> bool, n: nat)
    ensures forall k: nat :: Last(p, n + 1, k) <==> if p(n) then k == n else Last(p, n, k)
    ensures Never(p, n + 1) <==> Never(p, n) && !p(n)
  {
    forall k: nat ensures Last(p, n + 1, k) <==> if p(n) then k == n else Last(p, n, k) {
      assert p(n) && Last(p, n + 1, k) ==> !(k < n < n + 1);
      if Last(p, n, k) && !p(n) {
        assert forall m: nat | k < m < n + 1 :: m == n || !p(m);
      }
    }
    assert Never(p, n + 1) ==> !p(n);
  }

  /** The events that cancel the job while it runs. */
  function CancelEvents(cap: int, seed: nat, es: seq<Event>, id: JobId): nat -> bool {
    (k: nat) => k < |es| && Cancels(Before(cap, seed, es, k), es[k], id)
  }

  /** Those by the model. */
  function ModelCancels(cap: int, seed: nat, es: seq<Event>, id: JobId): nat -> bool {
    (k: nat) => k < |es| && es[k].CancelModelJob? && Cancels(Before(cap, seed, es, k), es[k], id)
  }

  function SourceOf(e: Event): Source {
    if e == CancelAll then ByCascade else Explicit
  }

  /** The source kept for a job is that of the last event that cancelled it; the reason is that of the last cancel by
      the model, whoever cancelled it afterwards. */
  ghost predicate CancelKept(es: seq<Event>, p: nat -> bool, q: nat -> bool, n: nat, j: Job)
    requires n <= |es| && forall k: nat | k < |es| && q(k) :: es[k].CancelModelJob?
  {
    && (forall k: nat | Last(p, n, k) :: j.cancelSource == Some(SourceOf(es[k])))
    && (Never(p, n) ==> j.cancelSource == None)
    && (forall k: nat | Last(q, n, k) :: j.modelReason == Some(es[k].reason))
    && (Never(q, n) ==> j.modelReason == None)
  }

  lemma CancelKeptNext(es: seq<Event>, p: nat -> bool, q: nat -> bool, n: nat, j: Job, k: Job)
    requires n < |es| && (forall k: nat | k < |es| && q(k) :: es[k].CancelModelJob?) && CancelKept(es, p, q, n, j)
    requires k.cancelSource == if p(n) then Some(SourceOf(es[n])) else j.cancelSource
    requires k.modelReason == if q(n) then Some(es[n].reason) else j.modelReason
    ensures CancelKept(es, p, q, n + 1, k)
  {
    LastNext(p, n);
    LastNext(q, n);
  }

  /** An entry that is there was there or was made by the last event. */
  lemma EntryNext(cap: int, seed: nat, es: seq<Event>, n: nat, id: JobId)
    requires n < |es|
    ensures var r, r' := Before(cap, seed, es, n), Before(cap, seed, es, n + 1);
      && Sound(r) && r' == Step(r, es[n])
      && (id in r'.jobs <==> id in r.jobs || Makes(r, es[n], id))
      && !(id in r.jobs && Makes(r, es[n], id))
  {
    BeforeNext(cap, seed, es, n);
    var r := Before(cap, seed, es, n);
    if id in r.jobs {
      StepTold(r, es[n], id);
      if es[n].Create? {
        NewIdIsNew(r, es[n].stamp);
      }
    } else {
      OnlyCreateMakes(r, es[n], id);
    }
  }

  /** Before its entry is made a job is not cancelled. */
  lemma {:induction false} NotYetCancelled(cap: int, seed: nat, es: seq<Event>, n: nat, id: JobId)
    requires n <= |es| && id !in Before(cap, seed, es, n).jobs
    ensures Never(CancelEvents(cap, seed, es, id), n) && Never(ModelCancels(cap, seed, es, id), n)
    decreases n
  {
    if n > 0 {
      EntryNext(cap, seed, es, n - 1, id);
      NotYetCancelled(cap, seed, es, n - 1, id);
      LastNext(CancelEvents(cap, seed, es, id), n - 1);
      LastNext(ModelCancels(cap, seed, es, id), n - 1);
    }
  }

  lemma NewKept(es: seq<Event>, p: nat -> bool, q: nat -> bool, n: nat, j: Job)
    requires n < |es| && forall k: nat | k < |es| && q(k) :: es[k].CancelModelJob?
    requires Never(p, n) && Never(q, n) && !p(n) && !q(n) && j.cancelSource == None && j.modelReason == None
    ensures CancelKept(es, p, q, n + 1, j)
  {
    LastNext(p, n);
    LastNext(q, n);
  }

  lemma {:induction false} CancelIsKept(cap: int, seed: nat, es: seq<Event>, n: nat, id: JobId)
    requires n <= |es| && id in Before(cap, seed, es, n).jobs
    ensures CancelKept(es, CancelEvents(cap, seed, es, id), ModelCancels(cap, seed, es, id), n,
                       Before(cap, seed, es, n).jobs[id])
    decreases n
  {
    var p, q := CancelEvents(cap, seed, es, id), ModelCancels(cap, seed, es, id);
    assert n > 0;
    var m := n - 1;
    var r, e := Before(cap, seed, es, m), es[m];
    assert Sound(r) && Before(cap, seed, es, n) == Step(r, e) && (id in r.jobs || Makes(r, e, id)) by {
      EntryNext(cap, seed, es, m, id);
    }
    assert p(m) <==> Cancels(r, e, id);
    assert q(m) <==> Cancels(r, e, id) && e.CancelModelJob?;
    if id in r.jobs {
      CancelIsKept(cap, seed, es, m, id);
      assert Attributed(r, e, id, r.jobs[id], Step(r, e).jobs[id]) by { StepTold(r, e, id); }
      CancelKeptNext(es, p, q, m, r.jobs[id], Step(r, e).jobs[id]);
    } else {
      NotYetCancelled(cap, seed, es, m, id);
      assert Step(r, e).jobs[id].cancelSource == None && Step(r, e).jobs[id].modelReason == None by {
        CreateMakes(r, e);
      }
      NewKept(es, p, q, m, Step(r, e).jobs[id]);
    }
  }

  // ----- the terminal record

  lemma EndingNext(r: Registry, e: Event, id: JobId, j: Job, k: Job)
    requires JobSound(j) && Attributed(r, e, id, j, k) && Recorded(r, e, id, j, k)
    requires id in r.jobs && r.jobs[id] == j
    requires j.status != Running ==> |j.log| >= 2 && j.log[1] == Ending(j, j.status)
    ensures k.status != Running ==> |k.log| >= 2 && k.log[1] == Ending(k, k.status)
  {
  }

  lemma {:induction false} EndingIs(cap: int, seed: nat, es: seq<Event>, n: nat, id: JobId)
    requires n <= |es| && id in Before(cap, seed, es, n).jobs
    ensures var j := Before(cap, seed, es, n).jobs[id];
      j.status != Running ==> |j.log| >= 2 && j.log[1] == Ending(j, j.status)
    decreases n
  {
    assert n > 0;
    var m := n - 1;
    var r, e := Before(cap, seed, es, m), es[m];
    EntryNext(cap, seed, es, m, id);
    if id in r.jobs {
      EndingIs(cap, seed, es, m, id);
      StepTold(r, e, id);
      assert JobSound(r.jobs[id]) by { assert EntrySound(r, id); }
      EndingNext(r, e, id, r.jobs[id], Step(r, e).jobs[id]);
    } else {
      assert Step(r, e).jobs[id].status == Running by { CreateMakes(r, e); }
    }
  }

  /** In every run, the terminal record of a cancelled job names the source of the last cancel issued while it ran, or
      `explicit` if there was none, and the reason the model gave last, even when somebody else cancelled after it. The
      terminal record of any other job names neither. */
  lemma {:induction false} TerminalRecordNames(cap: int, seed: nat, es: seq<Event>, id: JobId)
    requires id in Run(Initial(cap, seed), es).jobs && Run(Initial(cap, seed), es).jobs[id].status != Running
    ensures var j := Run(Initial(cap, seed), es).jobs[id];
      var p, q := CancelEvents(cap, seed, es, id), ModelCancels(cap, seed, es, id);
      && |j.log| >= 2 && j.log[1].EndedRecord? && j.log[1].status == j.status
      && if j.status != Cancelled then j.log[1].source == None && j.log[1].modelReason == None
         else
           && (forall k: nat | Last(p, |es|, k) :: j.log[1].source == Some(SourceOf(es[k])))
           && (Never(p, |es|) ==> j.log[1].source == Some(Explicit))
           && (forall k: nat | Last(q, |es|, k) :: j.log[1].modelReason == Some(es[k].reason))
           && (Never(q, |es|) ==> j.log[1].modelReason == None)
  {
    assert es[..|es|] == es;
    EndingIs(cap, seed, es, |es|, id);
    CancelIsKept(cap, seed, es, |es|, id);
  }

  // ----- the result

  /** The results that arrived for the job. */
  function Arrivals(cap: int, seed: nat, es: seq<Event>, id: JobId): nat -> bool {
    (k: nat) => k < |es| && es[k].Result? && es[k].id == id && id in Before(cap, seed, es, k).jobs
  }

  ghost predicate IsFirst(p: nat -> bool, n: nat, k: nat) {
    k < n && p(k) && Never(p, k)
  }

  lemma FirstNext(p: nat -> bool, n: nat)
    ensures forall k: nat :: IsFirst(p, n + 1, k) <==> IsFirst(p, n, k) || (k == n && p(n) && Never(p, n))
    ensures forall k: nat :: IsFirst(p, n, k) ==> !Never(p, n)
  {
    forall k: nat
      ensures IsFirst(p, n + 1, k) <==> IsFirst(p, n, k) || (k == n && p(n) && Never(p, n))
    {
      assert k == n ==> (IsFirst(p, n + 1, k) <==> p(n) && Never(p, n));
      assert k != n ==> (IsFirst(p, n + 1, k) <==> IsFirst(p, n, k));
    }
  }

  lemma {:induction false} NotYetArrived(cap: int, seed: nat, es: seq<Event>, n: nat, id: JobId)
    requires n <= |es| && id !in Before(cap, seed, es, n).jobs
    ensures Never(Arrivals(cap, seed, es, id), n)
    decreases n
  {
    if n > 0 {
      EntryNext(cap, seed, es, n - 1, id);
      NotYetArrived(cap, seed, es, n - 1, id);
      LastNext(Arrivals(cap, seed, es, id), n - 1);
    }
  }

  /** In every run, a job runs exactly until a result arrives for it, and what it ends with is the first result to
      arrive, whatever comes later. */
  lemma {:induction false} FirstResultCounts(cap: int, seed: nat, es: seq<Event>, n: nat, id: JobId)
    requires n <= |es| && id in Before(cap, seed, es, n).jobs
    ensures var j := Before(cap, seed, es, n).jobs[id]; var p := Arrivals(cap, seed, es, id);
      && (j.status == Running <==> Never(p, n))
      && forall k: nat | IsFirst(p, n, k) ::
           j.result == Some(es[k].result) && j.status == StatusFromResult(es[k].result.status)
    decreases n
  {
    var p := Arrivals(cap, seed, es, id);
    assert n > 0;
    var m := n - 1;
    var r, e := Before(cap, seed, es, m), es[m];
    assert Sound(r) && Before(cap, seed, es, n) == Step(r, e) && (id in r.jobs || Makes(r, e, id)) by {
      EntryNext(cap, seed, es, m, id);
    }
    assert p(m) <==> e.Result? && e.id == id && id in r.jobs;
    LastNext(p, m);
    FirstNext(p, m);
    if id in r.jobs {
      FirstResultCounts(cap, seed, es, m, id);
      assert Recorded(r, e, id, r.jobs[id], Step(r, e).jobs[id]) by { StepTold(r, e, id); }
    } else {
      NotYetArrived(cap, seed, es, m, id);
      assert Step(r, e).jobs[id].status == Running by { CreateMakes(r, e); }
    }
  }

  // ----- joins and deliveries

  ghost function Count(p: nat -> bool, n: nat): nat {
    if n == 0 then 0 else Count(p, n - 1) + if p(n - 1) then 1 else 0
  }

  function Deliveries(cap: int, seed: nat, es: seq<Event>, id: JobId): nat -> bool {
    (k: nat) => k < |es| && Delivers(Before(cap, seed, es, k), es[k], id)
  }

  function JoinCalls(cap: int, seed: nat, es: seq<Event>, id: JobId): nat -> bool {
    (k: nat) => k < |es| && Joins(Before(cap, seed, es, k), es[k], id)
  }

  function JoinsDelivered(log: seq<Record>): (n: nat)
  {
    if log == [] then 0 else JoinsDelivered(log[..|log| - 1]) + if log[|log| - 1].JoinedRecord? then 1 else 0
  }

  function TimesDelivered(log: seq<Record>): nat {
    if log == [] then 0 else TimesDelivered(log[..|log| - 1]) + if log[|log| - 1].DeliveredRecord? then 1 else 0
  }

  lemma {:induction false} VisitsAppend(log: seq<Record>, v: Record)
    ensures JoinsDelivered(log + [v]) == JoinsDelivered(log) + if v.JoinedRecord? then 1 else 0
    ensures TimesDelivered(log + [v]) == TimesDelivered(log) + if v.DeliveredRecord? then 1 else 0
  {
    assert (log + [v])[..|log|] == log;
  }

  lemma VisitsNext(r: Registry, e: Event, id: JobId, j: Job, k: Job)
    requires Recorded(r, e, id, j, k) && id in r.jobs && r.jobs[id] == j
    ensures TimesDelivered(k.log) == TimesDelivered(j.log) + if Delivers(r, e, id) then 1 else 0
    ensures k.joiners + JoinsDelivered(k.log) == j.joiners + JoinsDelivered(j.log) + if Joins(r, e, id) then 1 else 0
  {
    assert j.log + [] == j.log;
    VisitsAppend(j.log, Ending(j, k.status));
    VisitsAppend(j.log, JoinedRecord(j.status));
    VisitsAppend(j.log, DeliveredRecord(j.status));
  }

  lemma {:induction false} NotYetVisited(cap: int, seed: nat, es: seq<Event>, n: nat, id: JobId)
    requires n <= |es| && id !in Before(cap, seed, es, n).jobs
    ensures Count(Deliveries(cap, seed, es, id), n) == 0 && Count(JoinCalls(cap, seed, es, id), n) == 0
    decreases n
  {
    if n > 0 {
      EntryNext(cap, seed, es, n - 1, id);
      NotYetVisited(cap, seed, es, n - 1, id);
    }
  }

  lemma {:induction false} VisitsCounted(cap: int, seed: nat, es: seq<Event>, n: nat, id: JobId)
    requires n <= |es| && id in Before(cap, seed, es, n).jobs
    ensures var j := Before(cap, seed, es, n).jobs[id];
      && TimesDelivered(j.log) == Count(Deliveries(cap, seed, es, id), n)
      && j.joiners + JoinsDelivered(j.log) == Count(JoinCalls(cap, seed, es, id), n)
    decreases n
  {
    assert n > 0;
    var m := n - 1;
    var r, e := Before(cap, seed, es, m), es[m];
    var p, q := Deliveries(cap, seed, es, id), JoinCalls(cap, seed, es, id);
    assert Sound(r) && Before(cap, seed, es, n) == Step(r, e) && (id in r.jobs || Makes(r, e, id)) by {
      EntryNext(cap, seed, es, m, id);
    }
    assert p(m) <==> Delivers(r, e, id);
    assert q(m) <==> Joins(r, e, id);
    var k := Step(r, e).jobs[id];
    if id in r.jobs {
      VisitsCounted(cap, seed, es, m, id);
      assert Recorded(r, e, id, r.jobs[id], k) by { StepTold(r, e, id); }
      VisitsNext(r, e, id, r.jobs[id], k);
    } else {
      NotYetVisited(cap, seed, es, m, id);
      assert k.log == [StartedRecord] && k.joiners == 0 by { CreateMakes(r, e); }
      OnlyStarted(k.log);
    }
  }

  lemma {:induction false} OnlyStarted(log: seq<Record>)
    requires log == [StartedRecord]
    ensures TimesDelivered(log) == 0 && JoinsDelivered(log) == 0
  {
    assert log[..0] == [];
  }

  /** In every run, a job's trace holds one delivered record for each delivery made while it was listed and over, and
      every join of it while it was listed is either recorded as joined or still waiting. */
  lemma {:induction false} VisitsAreRecorded(cap: int, seed: nat, es: seq<Event>, id: JobId)
    requires id in Run(Initial(cap, seed), es).jobs
    ensures var j := Run(Initial(cap, seed), es).jobs[id];
      && TimesDelivered(j.log) == Count(Deliveries(cap, seed, es, id), |es|)
      && j.joiners + JoinsDelivered(j.log) == Count(JoinCalls(cap, seed, es, id), |es|)
  {
    assert es[..|es|] == es;
    VisitsCounted(cap, seed, es, |es|, id);
  }

  // ----- listing and ownership

  /** The evictions of the job after it ended. */
  function Evictions(cap: int, seed: nat, es: seq<Event>, id: JobId): nat -> bool {
    (k: nat) =>
      && k < |es| && es[k] == Evict(id)
      && var r := Before(cap, seed, es, k); id in r.jobs && r.jobs[id].status != Running
  }

  lemma {:induction false} NotYetEvicted(cap: int, seed: nat, es: seq<Event>, n: nat, id: JobId)
    requires n <= |es| && id !in Before(cap, seed, es, n).jobs
    ensures Never(Evictions(cap, seed, es, id), n)
    decreases n
  {
    if n > 0 {
      EntryNext(cap, seed, es, n - 1, id);
      NotYetEvicted(cap, seed, es, n - 1, id);
      LastNext(Evictions(cap, seed, es, id), n - 1);
    }
  }

  /** In every run, a job is listed exactly until an eviction comes after its end, and then never again; its eviction is
      due exactly while it is over and listed. */
  lemma {:induction false} ListedUntilEvicted(cap: int, seed: nat, es: seq<Event>, n: nat, id: JobId)
    requires n <= |es| && id in Before(cap, seed, es, n).jobs
    ensures var r := Before(cap, seed, es, n);
      && (id in r.listed <==> Never(Evictions(cap, seed, es, id), n))
      && (id in r.timers <==> id in r.listed && r.jobs[id].status != Running)
    decreases n
  {
    assert n > 0;
    var m := n - 1;
    var r, e := Before(cap, seed, es, m), es[m];
    EntryNext(cap, seed, es, m, id);
    LastNext(Evictions(cap, seed, es, id), m);
    if id in r.jobs {
      ListedUntilEvicted(cap, seed, es, m, id);
      ListedNext(r, e, id);
    } else {
      NotYetEvicted(cap, seed, es, m, id);
      CreateMakes(r, e);
    }
  }

  lemma ListedNext(r: Registry, e: Event, id: JobId)
    requires Sound(r) && id in r.jobs && (id in r.timers <==> id in r.listed && r.jobs[id].status != Running)
    ensures id in Step(r, e).jobs
    ensures var over := r.jobs[id].status != Running;
      && (id in Step(r, e).listed <==> id in r.listed && !(e == Evict(id) && over))
      && (id in Step(r, e).timers <==> id in Step(r, e).listed && Step(r, e).jobs[id].status != Running)
  {
    assert r.jobs[id].status == Running ==> id in r.listed by { assert EntrySound(r, id); }
    StepListed(r, e, id);
    StepTold(r, e, id);
  }

  /** The events that made the entry. */
  function Makings(cap: int, seed: nat, es: seq<Event>, id: JobId): nat -> bool {
    (k: nat) => k < |es| && es[k].Create? && Makes(Before(cap, seed, es, k), es[k], id)
  }

  function Owner(e: Event): Provenance
    requires e.Create?
  {
    match e.provenance case Some(p) => p case None => ByUser
  }

  ghost predicate Once(p: nat -> bool, n: nat) {
    forall a: nat, b: nat | a < n && b < n && p(a) && p(b) :: a == b
  }

  lemma OnceNext(p: nat -> bool, n: nat)
    requires Once(p, n) && (p(n) ==> Never(p, n))
    ensures Once(p, n + 1)
  {
  }

  /** In every run, an entry is there exactly when an event has made it; only one event makes it, and the job keeps the
      provenance given there, or `user` when none was. */
  lemma {:induction false} ProvenanceIsKept(cap: int, seed: nat, es: seq<Event>, n: nat, id: JobId)
    requires n <= |es|
    ensures var p := Makings(cap, seed, es, id); var r := Before(cap, seed, es, n);
      && (id in r.jobs <==> !Never(p, n)) && Once(p, n)
      && forall k: nat | Last(p, n, k) :: id in r.jobs && r.jobs[id].provenance == Owner(es[k])
    decreases n
  {
    var p := Makings(cap, seed, es, id);
    if n > 0 {
      var m := n - 1;
      var r, e := Before(cap, seed, es, m), es[m];
      ProvenanceIsKept(cap, seed, es, m, id);
      EntryNext(cap, seed, es, m, id);
      assert p(m) <==> Makes(r, e, id);
      LastNext(p, m);
      OnceNext(p, m);
      if id in r.jobs || Makes(r, e, id) {
        ProvenanceNext(r, e, id);
      }
    }
  }

  lemma ProvenanceNext(r: Registry, e: Event, id: JobId)
    requires Sound(r) && (id in r.jobs || Makes(r, e, id))
    ensures id in Step(r, e).jobs
    ensures Step(r, e).jobs[id].provenance == if id in r.jobs then r.jobs[id].provenance else Owner(e)
  {
    if id in r.jobs {
      StepTold(r, e, id);
    } else {
      CreateMakes(r, e);
    }
  }
}
