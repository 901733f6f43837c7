/** The budget invariant of the summarizer, over every interleaving of ticks, calls, retries and stops. */
module SummarizerBudget {
  import opened Text
  import opened SummarizerModel

  function Max(a: int, b: int): int {
    if a > b then a else b
  }

  function InPhase(s: State, p: Phase): set<nat> {
    set t | t in s.tasks && s.tasks[t].phase == p
  }

  /** Every charge is an attempt, a retry or an outstanding reservation; every charge but the suppressed ones and
      those still in backoff was a real model call; each task in its first call still owns one unspent retry. */
  ghost predicate Balanced(cfg: Config, s: State) {
    && s.calls == s.attempts + s.retried + s.reserved
    && s.llmCalls + s.suppressed + |InPhase(s, Backoff)| == s.attempts + s.retried
    && s.retried + |InPhase(s, First)| <= s.attempts
    && s.attempts + s.reserved <= Max(cfg.maxCalls, 0)
    && (forall t | t in s.tasks :: t < s.nextTask)
  }

  /** Reserve takes a prefix of the due jobs: as many as the budget still allows. */
  function DueJobs(cfg: Config, s: State, now: int, jobs: seq<RunningJob>): (r: seq<RunningJob>)
    requires cfg.intervalMs > 0
    ensures |r| <= |jobs|
  {
    if jobs == [] then []
    else (if Due(cfg, s, now, jobs[0].id) then [jobs[0]] else []) + DueJobs(cfg, s, now, jobs[1..])
  }

  lemma {:induction false} ReserveTakesFirstDue(cfg: Config, s: State, now: int, jobs: seq<RunningJob>)
    requires cfg.intervalMs > 0
    ensures var all := DueJobs(cfg, s, now, jobs);
      var room := Max(cfg.maxCalls - s.calls, 0);
      Reserve(cfg, s, now, jobs).1 == if |all| <= room then all else all[..room]
    decreases |jobs|
  {
    if jobs != [] {
      if !Due(cfg, s, now, jobs[0].id) || s.calls >= cfg.maxCalls {
        ReserveTakesFirstDue(cfg, s, now, jobs[1..]);
      } else {
        var s1 := Charge(s, 1);
        ReserveTakesFirstDue(cfg, s1, now, jobs[1..]);
        DueIgnoresBudget(cfg, s, s1, now, jobs[1..]);
      }
    }
  }

  lemma {:induction false} DueIgnoresBudget(cfg: Config, s: State, s1: State, now: int, jobs: seq<RunningJob>)
    requires cfg.intervalMs > 0 && s1.index == s.index && s1.lastRefreshed == s.lastRefreshed
    ensures DueJobs(cfg, s1, now, jobs) == DueJobs(cfg, s, now, jobs)
    decreases |jobs|
  {
    if jobs != [] {
      DueIgnoresBudget(cfg, s, s1, now, jobs[1..]);
    }
  }

  lemma {:induction false} ReserveBalanced(cfg: Config, s: State, now: int, jobs: seq<RunningJob>)
    requires cfg.intervalMs > 0 && Balanced(cfg, s)
    ensures Balanced(cfg, Reserve(cfg, s, now, jobs).0)
  {
    ReserveCounts(cfg, s, now, jobs);
    var s1 := Reserve(cfg, s, now, jobs).0;
    assert InPhase(s1, First) == InPhase(s, First) && InPhase(s1, Backoff) == InPhase(s, Backoff);
  }

  lemma Suspended(s: State, t: Task, p: Phase)
    requires s.nextTask !in s.tasks
    ensures |InPhase(Suspend(s, t), p)| == |InPhase(s, p)| + (if p == t.phase then 1 else 0)
  {
    var s1 := Suspend(s, t);
    if p == t.phase {
      assert InPhase(s1, p) == InPhase(s, p) + {s.nextTask};
    } else {
      assert InPhase(s1, p) == InPhase(s, p);
    }
  }

  lemma SameTasks(s: State, s1: State, p: Phase)
    requires s1.tasks == s.tasks
    ensures InPhase(s1, p) == InPhase(s, p)
  {
  }

  lemma GiveBackBalanced(cfg: Config, s: State, s1: State)
    requires Balanced(cfg, s) && s.reserved > 0 && s1.summaries.Keys == s.summaries.Keys
    requires s1 == GiveBack(s).(summaries := s1.summaries)
    ensures Balanced(cfg, s1)
  {
    SameTasks(s, s1, First);
    SameTasks(s, s1, Backoff);
  }

  lemma AttemptBalanced(cfg: Config, s: State, now: int, job: RunningJob)
    requires Balanced(cfg, s) && s.reserved > 0 && HasText(job.transcript)
    ensures Balanced(cfg, Launch(cfg, s, now, job))
  {
    var s1 := Launch(cfg, s, now, job);
    var t := s1.tasks[s.nextTask];
    Suspended(s, t, First);
    Suspended(s, t, Backoff);
    SameTasks(Suspend(s, t), s1, First);
    SameTasks(Suspend(s, t), s1, Backoff);
  }

  lemma LaunchBalanced(cfg: Config, s: State, now: int, job: RunningJob)
    requires Balanced(cfg, s) && s.reserved > 0
    ensures Balanced(cfg, Launch(cfg, s, now, job))
  {
    if HasText(job.transcript) {
      AttemptBalanced(cfg, s, now, job);
    } else {
      GiveBackBalanced(cfg, s, Launch(cfg, s, now, job));
    }
  }

  /** A tick leaves no reservation behind: each is spent or given back before the first await. */
  lemma {:induction false} LaunchAllBalanced(cfg: Config, s: State, now: int, jobs: seq<RunningJob>)
    requires Balanced(cfg, s) && s.reserved >= |jobs|
    ensures var s' := LaunchAll(cfg, s, now, jobs); Balanced(cfg, s') && s'.reserved == s.reserved - |jobs|
    decreases |jobs|
  {
    if jobs != [] {
      LaunchSpends(cfg, s, now, jobs[0]);
      LaunchBalanced(cfg, s, now, jobs[0]);
      LaunchAllBalanced(cfg, Launch(cfg, s, now, jobs[0]), now, jobs[1..]);
    }
  }

  /** One task leaves its phase, to another or for good. */
  lemma TaskMoves(s: State, s1: State, task: nat)
    requires task in s.tasks && s1.tasks.Keys <= s.tasks.Keys
    requires forall t | t in s.tasks && t != task :: t in s1.tasks && s1.tasks[t] == s.tasks[t]
    requires task in s1.tasks ==> s1.tasks[task].phase != s.tasks[task].phase
    ensures forall p: Phase :: |InPhase(s1, p)| == |InPhase(s, p)|
              - (if s.tasks[task].phase == p then 1 else 0)
              + (if task in s1.tasks && s1.tasks[task].phase == p then 1 else 0)
  {
    forall p: Phase
      ensures |InPhase(s1, p)| == |InPhase(s, p)|
              - (if s.tasks[task].phase == p then 1 else 0)
              + (if task in s1.tasks && s1.tasks[task].phase == p then 1 else 0)
    {
      if s.tasks[task].phase == p {
        assert InPhase(s1, p) == InPhase(s, p) - {task};
      } else if task in s1.tasks && s1.tasks[task].phase == p {
        assert InPhase(s1, p) == InPhase(s, p) + {task};
      } else {
        assert InPhase(s1, p) == InPhase(s, p);
      }
    }
  }

  lemma FailBalanced(cfg: Config, s: State, task: nat, extra: nat)
    requires task in s.tasks && (extra == if s.tasks[task].phase == Backoff then 1 else 0)
    requires Balanced(cfg, s)
    ensures Balanced(cfg, Fail(s.(suppressed := s.suppressed + extra), task))
  {
    TaskMoves(s, Fail(s.(suppressed := s.suppressed + extra), task), task);
  }

  lemma ReturnedBalanced(cfg: Config, s: State, task: nat, text: string)
    requires cfg.intervalMs > 0 && Balanced(cfg, s)
    ensures Balanced(cfg, Step(cfg, s, Returned(task, text)))
  {
    var s1 := Step(cfg, s, Returned(task, text));
    if s1 != s {
      TaskMoves(s, s1, task);
    }
  }

  lemma CallFailedBalanced(cfg: Config, s: State, task: nat, retryable: bool)
    requires cfg.intervalMs > 0 && Balanced(cfg, s)
    ensures Balanced(cfg, StepCallFailed(cfg, s, task, retryable))
  {
    var s1 := StepCallFailed(cfg, s, task, retryable);
    if task in s.tasks && s.tasks[task].phase != Backoff {
      if task in s1.tasks {
        TaskMoves(s, s1, task);
      } else {
        FailBalanced(cfg, s, task, 0);
      }
    }
  }

  lemma SecondCallBalanced(cfg: Config, s: State, task: nat)
    requires Balanced(cfg, s) && task in s.tasks && s.tasks[task].phase == Backoff
    ensures Balanced(cfg, CallAgain(s, task))
  {
    TaskMoves(s, CallAgain(s, task), task);
  }

  lemma BackoffEndedBalanced(cfg: Config, s: State, task: nat)
    requires cfg.intervalMs > 0 && Balanced(cfg, s)
    ensures Balanced(cfg, StepBackoffEnded(s, task))
  {
    if task in s.tasks && s.tasks[task].phase == Backoff {
      if s.tasks[task].signal in s.stopped {
        FailBalanced(cfg, s, task, 1);
      } else {
        SecondCallBalanced(cfg, s, task);
      }
    }
  }

  lemma StepBalanced(cfg: Config, s: State, e: Event)
    requires cfg.intervalMs > 0 && Balanced(cfg, s) && s.reserved == 0
    ensures Balanced(cfg, Step(cfg, s, e)) && Step(cfg, s, e).reserved == 0
  {
    var s1 := Step(cfg, s, e);
    match e
    case Tick(now, jobs) =>
      ReserveCounts(cfg, s, now, jobs);
      ReserveBalanced(cfg, s, now, jobs);
      var (r, due) := Reserve(cfg, s, now, jobs);
      LaunchAllBalanced(cfg, r, now, due);
    case Returned(task, text) => ReturnedBalanced(cfg, s, task, text);
    case CallFailed(task, retryable) => CallFailedBalanced(cfg, s, task, retryable);
    case BackoffEnded(task) => BackoffEndedBalanced(cfg, s, task);
    case _ =>
      assert InPhase(s1, First) == InPhase(s, First) && InPhase(s1, Backoff) == InPhase(s, Backoff);
  }

  lemma {:induction false} RunBalanced(cfg: Config, s: State, es: seq<Event>)
    requires cfg.intervalMs > 0 && Balanced(cfg, s) && s.reserved == 0
    ensures Balanced(cfg, Run(cfg, s, es)) && Run(cfg, s, es).reserved == 0
    decreases |es|
  {
    if es != [] {
      StepBalanced(cfg, s, es[0]);
      RunBalanced(cfg, Step(cfg, s, es[0]), es[1..]);
    }
  }

  /** In every run: the counter is exactly attempts plus retries, initial attempts respect the cap, and the model
      is never called more than twice the cap, whatever the interleaving. */
  lemma {:induction false} BudgetHolds(cfg: Config, es: seq<Event>)
    requires cfg.intervalMs > 0
    ensures var s := Run(cfg, INITIAL, es);
      && s.calls == s.attempts + s.retried
      && s.attempts <= Max(cfg.maxCalls, 0)
      && s.retried <= s.attempts
      && s.llmCalls <= s.calls <= 2 * Max(cfg.maxCalls, 0)
  {
    assert InPhase(INITIAL, First) == {} && InPhase(INITIAL, Backoff) == {};
    RunBalanced(cfg, INITIAL, es);
  }

  /** One due job with a transcript, room in the budget, and a live signal: one model call is in flight. */
  lemma OneCall(cfg: Config, s: State, now: int, job: RunningJob)
    requires cfg.intervalMs > 0 && Due(cfg, s, now, job.id) && s.calls < cfg.maxCalls
    requires HasText(job.transcript) && s.signal !in s.stopped
    ensures Step(cfg, s, Tick(now, [job])) ==
              s.(calls := s.calls + 1, attempts := s.attempts + 1, llmCalls := s.llmCalls + 1,
                 lastRefreshed := s.lastRefreshed[job.id := now],
                 tasks := s.tasks[s.nextTask := Task(job.id, now, s.signal, First)], nextTask := s.nextTask + 1)
  {
    var s1 := Charge(s, 1);
    assert [job][1..] == [] && [job] + [] == [job];
    assert Reserve(cfg, s1, now, [job][1..]) == (s1, []);
    assert Reserve(cfg, s, now, [job]) == (s1, [[job][0]] + []);
    assert LaunchAll(cfg, s1, now, [job]) == LaunchAll(cfg, Launch(cfg, s1, now, job), now, []);
  }

  lemma {:induction false} RunJoin(cfg: Config, s: State, a: seq<Event>, b: seq<Event>)
    requires cfg.intervalMs > 0
    ensures Run(cfg, s, a + b) == Run(cfg, Run(cfg, s, a), b)
    decreases |a|
  {
    if a == [] {
      assert a + b == b;
    } else {
      assert (a + b)[0] == a[0] && (a + b)[1..] == a[1..] + b;
      RunJoin(cfg, Step(cfg, s, a[0]), a[1..], b);
    }
  }

  lemma {:induction false} RunSnoc(cfg: Config, s: State, es: seq<Event>, e: Event)
    requires cfg.intervalMs > 0
    ensures Run(cfg, s, es + [e]) == Step(cfg, Run(cfg, s, es), e)
  {
    RunJoin(cfg, s, es, [e]);
    var s1 := Run(cfg, s, es);
    assert [e][1..] == [];
    assert Run(cfg, s1, [e]) == Run(cfg, Step(cfg, s1, e), []);
  }

  /** The timer is started and fires n times, an interval apart, with one job that has a transcript. */
  function Ticks(cfg: Config, job: RunningJob, n: nat): seq<Event> {
    if n == 0 then [Start] else Ticks(cfg, job, n - 1) + [Tick(n * cfg.intervalMs, [job])]
  }

  /** Then the first m calls fail once, transiently, and are retried. */
  function Retries(cfg: Config, job: RunningJob, n: nat, m: nat): seq<Event> {
    if m == 0 then Ticks(cfg, job, n)
    else Retries(cfg, job, n, m - 1) + [CallFailed(m - 1, true)] + [BackoffEnded(m - 1)]
  }

  /** n first calls and m retries have been made; the calls from m on are still in their first attempt. */
  ghost predicate Made(s: State, n: nat, m: nat) {
    && s.calls == s.llmCalls == n + m && s.signal !in s.stopped && s.nextTask == n && s.index == map[]
    && forall t: nat | m <= t < n :: t in s.tasks && s.tasks[t].phase == First && s.tasks[t].signal == s.signal
  }

  function LastRefresh(s: State, id: JobId): int {
    if id in s.lastRefreshed then s.lastRefreshed[id] else 0
  }

  lemma IntervalPassed(cfg: Config, s: State, id: JobId, n: nat)
    requires cfg.intervalMs > 0 && s.index == map[] && LastRefresh(s, id) == n * cfg.intervalMs
    ensures Due(cfg, s, (n + 1) * cfg.intervalMs, id)
  {
    assert (n + 1) * cfg.intervalMs == n * cfg.intervalMs + cfg.intervalMs;
    assert 0 % cfg.intervalMs == 0;
  }

  lemma TickMade(cfg: Config, s: State, job: RunningJob, n: nat)
    requires cfg.intervalMs > 0 && n < cfg.maxCalls && HasText(job.transcript)
    requires Made(s, n, 0) && LastRefresh(s, job.id) == n * cfg.intervalMs
    ensures var s1 := Step(cfg, s, Tick((n + 1) * cfg.intervalMs, [job]));
      Made(s1, n + 1, 0) && LastRefresh(s1, job.id) == (n + 1) * cfg.intervalMs
  {
    IntervalPassed(cfg, s, job.id, n);
    OneCall(cfg, s, (n + 1) * cfg.intervalMs, job);
  }

  lemma {:induction false} TicksMade(cfg: Config, job: RunningJob, n: nat)
    requires cfg.intervalMs > 0 && n <= cfg.maxCalls && HasText(job.transcript)
    ensures var s := Run(cfg, INITIAL, Ticks(cfg, job, n));
      Made(s, n, 0) && LastRefresh(s, job.id) == n * cfg.intervalMs
  {
    if n == 0 {
      assert Ticks(cfg, job, 0) == [] + [Start];
      RunSnoc(cfg, INITIAL, [], Start);
    } else {
      TicksMade(cfg, job, n - 1);
      RunSnoc(cfg, INITIAL, Ticks(cfg, job, n - 1), Tick(n * cfg.intervalMs, [job]));
      TickMade(cfg, Run(cfg, INITIAL, Ticks(cfg, job, n - 1)), job, n - 1);
    }
  }

  lemma RetryMade(cfg: Config, s: State, n: nat, m: nat)
    requires cfg.intervalMs > 0 && cfg.retries && m < n && Made(s, n, m)
    ensures Made(Step(cfg, Step(cfg, s, CallFailed(m, true)), BackoffEnded(m)), n, m + 1)
  {
    var s1 := Step(cfg, s, CallFailed(m, true));
    assert s1 == Retry(s, m);
    assert Step(cfg, s1, BackoffEnded(m)) == CallAgain(s1, m);
  }

  lemma {:induction false} RetriesMade(cfg: Config, job: RunningJob, n: nat, m: nat)
    requires cfg.intervalMs > 0 && cfg.retries && m <= n <= cfg.maxCalls && HasText(job.transcript)
    ensures Made(Run(cfg, INITIAL, Retries(cfg, job, n, m)), n, m)
    decreases m
  {
    if m == 0 {
      TicksMade(cfg, job, n);
    } else {
      RetriesMade(cfg, job, n, m - 1);
      var es := Retries(cfg, job, n, m - 1);
      RunSnoc(cfg, INITIAL, es, CallFailed(m - 1, true));
      RunSnoc(cfg, INITIAL, es + [CallFailed(m - 1, true)], BackoffEnded(m - 1));
      RetryMade(cfg, Run(cfg, INITIAL, es), n, m - 1);
    }
  }

  /** The bound of twice the cap is attained for every cap: as many first calls as the cap allows, each failing
      once and retried. */
  lemma TwiceTheCapIsReached(cfg: Config, job: RunningJob) returns (es: seq<Event>)
    requires cfg.intervalMs > 0 && cfg.retries && cfg.maxCalls >= 0 && HasText(job.transcript)
    ensures Run(cfg, INITIAL, es).llmCalls == 2 * cfg.maxCalls
  {
    es := Retries(cfg, job, cfg.maxCalls, cfg.maxCalls);
    RetriesMade(cfg, job, cfg.maxCalls, cfg.maxCalls);
  }

  lemma {:induction false} LaunchAllRetriesNothing(cfg: Config, s: State, now: int, jobs: seq<RunningJob>)
    requires s.reserved >= |jobs|
    ensures LaunchAll(cfg, s, now, jobs).retried == s.retried
    decreases |jobs|
  {
    if jobs != [] {
      LaunchSpends(cfg, s, now, jobs[0]);
      LaunchAllRetriesNothing(cfg, Launch(cfg, s, now, jobs[0]), now, jobs[1..]);
    }
  }

  lemma StepRetriesNothing(cfg: Config, s: State, e: Event)
    requires cfg.intervalMs > 0 && !cfg.retries
    ensures Step(cfg, s, e).retried == s.retried
  {
    if e.Tick? {
      ReserveCounts(cfg, s, e.now, e.jobs);
      var (r, due) := Reserve(cfg, s, e.now, e.jobs);
      LaunchAllRetriesNothing(cfg, r, e.now, due);
    }
  }

  lemma {:induction false} NothingRetried(cfg: Config, s: State, es: seq<Event>)
    requires cfg.intervalMs > 0 && !cfg.retries
    ensures Run(cfg, s, es).retried == s.retried
    decreases |es|
  {
    if es != [] {
      StepRetriesNothing(cfg, s, es[0]);
      NothingRetried(cfg, Step(cfg, s, es[0]), es[1..]);
    }
  }

  /** The cap bounds the model calls of every run exactly when there are no retries or the cap allows no call. */
  lemma {:induction false} CapBoundsCallsExactly(cfg: Config)
    requires cfg.intervalMs > 0
    ensures (forall es :: Run(cfg, INITIAL, es).llmCalls <= Max(cfg.maxCalls, 0)) <==> !cfg.retries || cfg.maxCalls <= 0
  {
    if cfg.retries && cfg.maxCalls > 0 {
      assert 'x' in "x" && !IsSpace('x');
      var es := TwiceTheCapIsReached(cfg, RunningJob("", Tail("x")));
      assert Run(cfg, INITIAL, es).llmCalls > Max(cfg.maxCalls, 0);
    } else {
      forall es ensures Run(cfg, INITIAL, es).llmCalls <= Max(cfg.maxCalls, 0) {
        BudgetHolds(cfg, es);
        if !cfg.retries {
          NothingRetried(cfg, INITIAL, es);
        }
      }
    }
  }

  // ----- the summary of a settled job

  ghost predicate Restores(s: State, e: Event, id: JobId) {
    e.Returned? && e.task in s.tasks && s.tasks[e.task].phase in {First, Second} && s.tasks[e.task].id == id
  }

  lemma {:induction false} LaunchAllKeeps(cfg: Config, s: State, now: int, jobs: seq<RunningJob>)
    requires s.reserved >= |jobs|
    ensures LaunchAll(cfg, s, now, jobs).summaries.Keys == s.summaries.Keys
    decreases |jobs|
  {
    if jobs != [] {
      LaunchAllKeeps(cfg, Launch(cfg, s, now, jobs[0]), now, jobs[1..]);
    }
  }

  /** A settled job has no summary, and gets one back exactly when a refresh that was already in flight returns. */
  lemma SummaryReturns(cfg: Config, s: State, e: Event, id: JobId)
    requires cfg.intervalMs > 0 && id !in s.summaries
    ensures id in Step(cfg, s, e).summaries <==> Restores(s, e, id)
  {
    if e.Tick? {
      ReserveCounts(cfg, s, e.now, e.jobs);
      var (r, due) := Reserve(cfg, s, e.now, e.jobs);
      LaunchAllKeeps(cfg, r, e.now, due);
    }
  }

  /** It happens: a job is due, settles while its call is in flight, and the call returns. */
  lemma {:induction false} SettledSummaryReturns(cfg: Config, id: JobId, now: int, text: string)
    requires cfg.intervalMs > 0 && cfg.maxCalls > 0 && now >= cfg.intervalMs
    ensures var settled := [] + [Start] + [Started(id)] + [Tick(now, [RunningJob(id, Tail("x"))])] + [Settled(id)];
      && id !in Run(cfg, INITIAL, settled).summaries && id !in Run(cfg, INITIAL, settled).index
      && Run(cfg, INITIAL, settled + [Returned(0, text)]).summaries == map[id := Entry(text, now, false)]
  {
    var job := RunningJob(id, Tail("x"));
    var es1 := [] + [Start] + [Started(id)];
    var es2 := es1 + [Tick(now, [job])];
    var s1 := Step(cfg, Step(cfg, INITIAL, Start), Started(id));
    RunSnoc(cfg, INITIAL, [], Start);
    RunSnoc(cfg, INITIAL, [] + [Start], Started(id));
    RunSnoc(cfg, INITIAL, es1, Tick(now, [job]));
    RunSnoc(cfg, INITIAL, es2, Settled(id));
    RunSnoc(cfg, INITIAL, es2 + [Settled(id)], Returned(0, text));
    assert 'x' in "x" && !IsSpace('x');
    assert 0 % cfg.intervalMs == 0;
    OneCall(cfg, s1, now, job);
  }
}
