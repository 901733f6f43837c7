/** Over whole runs: how soon a job is refreshed again, which text its summary holds, and that a stopped summarizer is
    silent. */
module SummarizerRuns {
  import opened Text
  import opened SummarizerModel
  import opened SummarizerBudget

  /** The state before event n of the run. */
  function Before(cfg: Config, es: seq<Event>, n: nat): State
    requires cfg.intervalMs > 0 && n <= |es|
  {
    Run(cfg, INITIAL, es[..n])
  }

  /** From s to s' an attempt to refresh id was started. */
  ghost predicate Attempted(s: State, s': State, id: JobId) {
    exists t :: t in s'.tasks && t !in s.tasks && s'.tasks[t].id == id
  }

  /** Event n starts an attempt to refresh id. */
  ghost predicate Refreshes(cfg: Config, es: seq<Event>, n: nat, id: JobId)
    requires cfg.intervalMs > 0 && n < |es|
  {
    Attempted(Before(cfg, es, n), Before(cfg, es, n + 1), id)
  }

  ghost predicate SameRefresh(s: State, s': State, id: JobId) {
    && (id in s'.lastRefreshed <==> id in s.lastRefreshed)
    && (id in s.lastRefreshed ==> s'.lastRefreshed[id] == s.lastRefreshed[id])
  }

  ghost predicate Numbered(s: State) {
    forall t | t in s.tasks :: t < s.nextTask
  }

  /** What a tick's launches do to the record of refreshes: an attempt stamps its job, nothing else is stamped. */
  ghost predicate Stamped(s: State, s': State, now: int, ids: set<JobId>) {
    && Numbered(s') && s'.index == s.index
    && (forall t | t in s.tasks :: t in s'.tasks && s'.tasks[t] == s.tasks[t])
    && (forall t | t in s'.tasks && t !in s.tasks :: s'.tasks[t].now == now && s'.tasks[t].id in ids)
    && (forall id | Attempted(s, s', id) :: id in s'.lastRefreshed && s'.lastRefreshed[id] == now)
    && (forall id | !Attempted(s, s', id) :: SameRefresh(s, s', id))
  }

  function Ids(jobs: seq<RunningJob>): set<JobId> {
    set j | j in jobs :: j.id
  }

  lemma LaunchStamps(cfg: Config, s: State, now: int, job: RunningJob)
    requires s.reserved > 0 && Numbered(s)
    ensures Stamped(s, Launch(cfg, s, now, job), now, {job.id})
  {
    var s' := Launch(cfg, s, now, job);
    if HasText(job.transcript) {
      BeginStamps(s, s', now, s'.tasks[s.nextTask]);
    } else {
      assert s'.tasks == s.tasks && s'.lastRefreshed == s.lastRefreshed && s'.index == s.index;
    }
  }

  lemma BeginStamps(s: State, s': State, now: int, t: Task)
    requires Numbered(s) && s'.index == s.index && t.now == now
    requires s'.tasks == s.tasks[s.nextTask := t] && s'.nextTask == s.nextTask + 1
    requires s'.lastRefreshed == s.lastRefreshed[t.id := now]
    ensures Stamped(s, s', now, {t.id}) && Attempted(s, s', t.id)
  {
    assert s.nextTask in s'.tasks && s.nextTask !in s.tasks && s'.tasks[s.nextTask].id == t.id;
  }

  lemma AttemptedEither(s: State, m: State, s': State, now: int, a: set<JobId>, b: set<JobId>, id: JobId)
    requires Stamped(s, m, now, a) && Stamped(m, s', now, b)
    ensures Attempted(s, s', id) <==> Attempted(s, m, id) || Attempted(m, s', id)
  {
    if t :| t in m.tasks && t !in s.tasks && m.tasks[t].id == id {
      assert t in s'.tasks && s'.tasks[t].id == id;
    }
    if t :| t in s'.tasks && t !in s.tasks && s'.tasks[t].id == id {
      assert t in m.tasks ==> m.tasks[t].id == id;
    }
  }

  lemma StampedThen(s: State, m: State, s': State, now: int, a: set<JobId>, b: set<JobId>)
    requires Stamped(s, m, now, a) && Stamped(m, s', now, b)
    ensures Stamped(s, s', now, a + b)
  {
    forall id
      ensures Attempted(s, s', id) ==> id in s'.lastRefreshed && s'.lastRefreshed[id] == now
      ensures !Attempted(s, s', id) ==> SameRefresh(s, s', id)
    {
      AttemptedEither(s, m, s', now, a, b, id);
      assert !Attempted(m, s', id) ==> SameRefresh(m, s', id);
    }
  }

  lemma {:induction false} LaunchAllStamps(cfg: Config, s: State, now: int, jobs: seq<RunningJob>)
    requires s.reserved >= |jobs| && Numbered(s)
    ensures Stamped(s, LaunchAll(cfg, s, now, jobs), now, Ids(jobs))
    decreases |jobs|
  {
    if jobs != [] {
      var m := Launch(cfg, s, now, jobs[0]);
      LaunchSpends(cfg, s, now, jobs[0]);
      LaunchStamps(cfg, s, now, jobs[0]);
      LaunchAllStamps(cfg, m, now, jobs[1..]);
      StampedThen(s, m, LaunchAll(cfg, s, now, jobs), now, {jobs[0].id}, Ids(jobs[1..]));
      assert {jobs[0].id} + Ids(jobs[1..]) == Ids(jobs) by { assert jobs == [jobs[0]] + jobs[1..]; }
    }
  }

  lemma LaunchAttempts(cfg: Config, s: State, now: int, job: RunningJob, id: JobId)
    requires s.reserved > 0 && Numbered(s)
    ensures Attempted(s, Launch(cfg, s, now, job), id) <==> HasText(job.transcript) && job.id == id
  {
    var s' := Launch(cfg, s, now, job);
    if HasText(job.transcript) {
      assert s'.tasks == s.tasks[s.nextTask := s'.tasks[s.nextTask]] && s'.tasks[s.nextTask].id == job.id;
      assert s.nextTask !in s.tasks;
    } else {
      assert s'.tasks == s.tasks;
    }
  }

  ghost predicate SomeText(jobs: seq<RunningJob>, id: JobId) {
    exists j :: j in jobs && HasText(j.transcript) && j.id == id
  }

  lemma {:induction false} LaunchAllAttempts(cfg: Config, s: State, now: int, jobs: seq<RunningJob>, id: JobId)
    requires s.reserved >= |jobs| && Numbered(s)
    ensures Attempted(s, LaunchAll(cfg, s, now, jobs), id) <==> SomeText(jobs, id)
    decreases |jobs|
  {
    if jobs != [] {
      var m, rest := Launch(cfg, s, now, jobs[0]), jobs[1..];
      LaunchSpends(cfg, s, now, jobs[0]);
      LaunchStamps(cfg, s, now, jobs[0]);
      LaunchAttempts(cfg, s, now, jobs[0], id);
      LaunchAllStamps(cfg, m, now, rest);
      LaunchAllAttempts(cfg, m, now, rest, id);
      AttemptedEither(s, m, LaunchAll(cfg, s, now, jobs), now, {jobs[0].id}, Ids(rest), id);
      assert jobs == [jobs[0]] + rest;
      assert SomeText(jobs, id) <==> (HasText(jobs[0].transcript) && jobs[0].id == id) || SomeText(rest, id);
    }
  }

  // ----- one step

  function Age(s: State, now: int, id: JobId): int {
    now - if id in s.lastRefreshed then s.lastRefreshed[id] else 0
  }

  /** Three seconds for each registration before that of this job, modulo the interval. */
  function Jitter(cfg: Config, s: State, id: JobId): int
    requires cfg.intervalMs > 0
  {
    if id in s.index then (s.index[id] * 3000) % cfg.intervalMs else 0
  }

  /** A job is due when its last refresh is an interval old, less one second and its jitter. */
  lemma DueMeans(cfg: Config, s: State, now: int, id: JobId)
    requires cfg.intervalMs > 0
    ensures Due(cfg, s, now, id) <==> Age(s, now, id) >= cfg.intervalMs - 1000 - Jitter(cfg, s, id)
    ensures 0 <= Jitter(cfg, s, id) < cfg.intervalMs
  {
  }

  ghost predicate SameIndex(s: State, s': State, id: JobId) {
    (id in s'.index <==> id in s.index) && (id in s.index ==> s'.index[id] == s.index[id])
  }

  lemma SameDue(cfg: Config, s: State, s': State, now: int, id: JobId)
    requires cfg.intervalMs > 0 && SameIndex(s, s', id) && SameRefresh(s, s', id)
    ensures Due(cfg, s', now, id) <==> Due(cfg, s, now, id)
  {
  }

  lemma {:induction false} ReservedAreDue(cfg: Config, s: State, now: int, jobs: seq<RunningJob>)
    requires cfg.intervalMs > 0
    ensures forall j | j in Reserve(cfg, s, now, jobs).1 :: Due(cfg, s, now, j.id)
    decreases |jobs|
  {
    if jobs != [] {
      if !Due(cfg, s, now, jobs[0].id) || s.calls >= cfg.maxCalls {
        ReservedAreDue(cfg, s, now, jobs[1..]);
      } else {
        ReservedAreDue(cfg, Charge(s, 1), now, jobs[1..]);
        var due := Reserve(cfg, Charge(s, 1), now, jobs[1..]).1;
        forall j | j in [jobs[0]] + due ensures Due(cfg, s, now, j.id) {
          SameDue(cfg, s, Charge(s, 1), now, j.id);
          assert j !in due ==> j == jobs[0];
        }
      }
    }
  }

  /** Only a tick starts an attempt, and only once the last one is old enough; only an attempt or the end of the job
      changes when the job was last refreshed. */
  ghost predicate StepPaced(cfg: Config, s: State, e: Event, id: JobId)
    requires cfg.intervalMs > 0
  {
    var s' := Step(cfg, s, e);
    && Numbered(s')
    && (Attempted(s, s', id) ==>
          && e.Tick? && Due(cfg, s, e.now, id)
          && id in s'.lastRefreshed && s'.lastRefreshed[id] == e.now)
    && (!Attempted(s, s', id) && e != Settled(id) ==> SameRefresh(s, s', id))
    && (e != Started(id) && e != Settled(id) ==> SameIndex(s, s', id))
  }

  lemma TickPaced(cfg: Config, s: State, now: int, jobs: seq<RunningJob>, id: JobId)
    requires cfg.intervalMs > 0 && Numbered(s)
    ensures StepPaced(cfg, s, Tick(now, jobs), id)
  {
    ReserveCounts(cfg, s, now, jobs);
    ReservedAreDue(cfg, s, now, jobs);
    var (r, due) := Reserve(cfg, s, now, jobs);
    LaunchAllStamps(cfg, r, now, due);
    var s' := Step(cfg, s, Tick(now, jobs));
    assert Attempted(s, s', id) <==> Attempted(r, s', id);
    assert SameRefresh(r, s', id) <==> SameRefresh(s, s', id);
    if t :| t in s'.tasks && t !in r.tasks && s'.tasks[t].id == id {
      assert id in Ids(due);
    }
  }

  /** A tick starts an attempt for exactly the jobs with a text among the first due ones the budget still allows. */
  lemma {:induction false} TickRefreshesExactly(cfg: Config, s: State, now: int, jobs: seq<RunningJob>, id: JobId)
    requires cfg.intervalMs > 0 && Numbered(s)
    ensures var due := DueJobs(cfg, s, now, jobs);
      var room := Max(cfg.maxCalls - s.calls, 0);
      Attempted(s, Step(cfg, s, Tick(now, jobs)), id) <==> SomeText(if |due| <= room then due else due[..room], id)
  {
    ReserveCounts(cfg, s, now, jobs);
    ReserveTakesFirstDue(cfg, s, now, jobs);
    var (r, due) := Reserve(cfg, s, now, jobs);
    LaunchAllAttempts(cfg, r, now, due, id);
    assert Attempted(s, Step(cfg, s, Tick(now, jobs)), id) <==> Attempted(r, LaunchAll(cfg, r, now, due), id);
  }

  lemma OtherStepPaced(cfg: Config, s: State, e: Event, id: JobId)
    requires cfg.intervalMs > 0 && Numbered(s) && !e.Tick?
    ensures StepPaced(cfg, s, e, id)
  {
    assert forall t | t in Step(cfg, s, e).tasks :: t in s.tasks;
  }

  lemma StepIsPaced(cfg: Config, s: State, e: Event, id: JobId)
    requires cfg.intervalMs > 0 && Numbered(s)
    ensures StepPaced(cfg, s, e, id)
  {
    match e
    case Tick(now, jobs) => TickPaced(cfg, s, now, jobs, id);
    case _ => OtherStepPaced(cfg, s, e, id);
  }

  // ----- runs

  lemma {:induction false} RunPaced(cfg: Config, es: seq<Event>, n: nat, id: JobId)
    requires cfg.intervalMs > 0 && n <= |es|
    ensures Numbered(Before(cfg, es, n))
    ensures n < |es| ==> Before(cfg, es, n + 1) == Step(cfg, Before(cfg, es, n), es[n])
    ensures n < |es| ==> StepPaced(cfg, Before(cfg, es, n), es[n], id)
    decreases n
  {
    if n > 0 {
      RunPaced(cfg, es, n - 1, id);
    }
    if n < |es| {
      assert es[..n + 1] == es[..n] + [es[n]];
      RunSnoc(cfg, INITIAL, es[..n], es[n]);
      StepIsPaced(cfg, Before(cfg, es, n), es[n], id);
    }
  }

  /** While the job neither settles nor is refreshed again, its last refresh stands. */
  lemma {:induction false} RefreshStands(cfg: Config, es: seq<Event>, i: nat, j: nat, id: JobId)
    requires cfg.intervalMs > 0 && i < j <= |es| && Refreshes(cfg, es, i, id)
    requires forall k | i < k < j :: es[k] != Settled(id) && !Refreshes(cfg, es, k, id)
    ensures es[i].Tick?
    ensures var s := Before(cfg, es, j); id in s.lastRefreshed && s.lastRefreshed[id] == es[i].now
    decreases j
  {
    RunPaced(cfg, es, j - 1, id);
    if j > i + 1 {
      RefreshStands(cfg, es, i, j - 1, id);
    }
  }

  lemma {:induction false} IndexStands(cfg: Config, es: seq<Event>, i: nat, j: nat, id: JobId)
    requires cfg.intervalMs > 0 && i <= j <= |es|
    requires forall k | i <= k < j :: es[k] != Settled(id) && es[k] != Started(id)
    ensures SameIndex(Before(cfg, es, i), Before(cfg, es, j), id)
    decreases j
  {
    if i < j {
      RunPaced(cfg, es, j - 1, id);
      IndexStands(cfg, es, i, j - 1, id);
    }
  }

  /** In every run, of two consecutive attempts to refresh a job that does not settle in between, the second comes at
      least an interval less one second and the job's jitter after the first; and the jitter is that of the first as
      long as the job is not registered again. */
  lemma {:induction false} RefreshGap(cfg: Config, es: seq<Event>, i: nat, j: nat, id: JobId)
    requires cfg.intervalMs > 0 && i < j < |es| && Refreshes(cfg, es, i, id) && Refreshes(cfg, es, j, id)
    requires forall k | i < k < j :: es[k] != Settled(id) && !Refreshes(cfg, es, k, id)
    ensures es[i].Tick? && es[j].Tick?
    ensures es[j].now - es[i].now >= cfg.intervalMs - 1000 - Jitter(cfg, Before(cfg, es, j), id)
    ensures (forall k | i <= k < j :: es[k] != Started(id)) ==>
              Jitter(cfg, Before(cfg, es, j), id) == Jitter(cfg, Before(cfg, es, i), id)
  {
    RefreshStands(cfg, es, i, j, id);
    RunPaced(cfg, es, j, id);
    DueMeans(cfg, Before(cfg, es, j), es[j].now, id);
    if forall k | i <= k < j :: es[k] != Started(id) {
      IndexStands(cfg, es, i, j, id);
    }
  }

  // ----- the jitter of a job

  /** How many jobs were registered by the first n events. */
  function Registrations(es: seq<Event>, n: nat): nat
    requires n <= |es|
  {
    if n == 0 then 0 else Registrations(es, n - 1) + if es[n - 1].Started? then 1 else 0
  }

  /** Event k is the last registration of the job before event n, and the job has not settled since. */
  ghost predicate LastStart(es: seq<Event>, n: nat, id: JobId, k: nat)
    requires n <= |es|
  {
    k < n && es[k] == Started(id) && forall m: nat | k < m < n :: es[m] != Started(id) && es[m] != Settled(id)
  }

  ghost predicate HasStarted(es: seq<Event>, n: nat, id: JobId)
    requires n <= |es|
  {
    exists k: nat :: LastStart(es, n, id, k)
  }

  lemma StartedNext(es: seq<Event>, n: nat, id: JobId)
    requires n < |es|
    ensures forall k: nat :: LastStart(es, n + 1, id, k) <==>
              if es[n] == Started(id) then k == n else LastStart(es, n, id, k) && es[n] != Settled(id)
    ensures HasStarted(es, n + 1, id) <==> es[n] == Started(id) || (HasStarted(es, n, id) && es[n] != Settled(id))
  {
    forall k: nat
      ensures LastStart(es, n + 1, id, k) <==>
                if es[n] == Started(id) then k == n else LastStart(es, n, id, k) && es[n] != Settled(id)
    {
    }
    if es[n] == Started(id) {
      assert LastStart(es, n + 1, id, n);
    } else if k: nat :| LastStart(es, n, id, k) {
      assert es[n] != Settled(id) ==> LastStart(es, n + 1, id, k);
    }
    var next := n + 1;
    if k: nat :| LastStart(es, next, id, k) {
      assert es[n] == Started(id) || LastStart(es, n, id, k);
    }
  }

  lemma StepIndex(cfg: Config, s: State, e: Event, id: JobId)
    requires cfg.intervalMs > 0 && Numbered(s)
    ensures var s' := Step(cfg, s, e);
      && s'.nextIndex == s.nextIndex + (if e.Started? then 1 else 0)
      && (e == Started(id) ==> id in s'.index && s'.index[id] == s.nextIndex)
      && (e == Settled(id) ==> id !in s'.index)
      && (e != Started(id) && e != Settled(id) ==> SameIndex(s, s', id))
  {
    if e.Tick? {
      ReserveCounts(cfg, s, e.now, e.jobs);
      var (r, due) := Reserve(cfg, s, e.now, e.jobs);
      LaunchAllIndex(cfg, r, e.now, due);
    }
  }

  lemma {:induction false} LaunchAllIndex(cfg: Config, s: State, now: int, jobs: seq<RunningJob>)
    requires s.reserved >= |jobs|
    ensures var s' := LaunchAll(cfg, s, now, jobs); s'.index == s.index && s'.nextIndex == s.nextIndex
    decreases |jobs|
  {
    if jobs != [] {
      LaunchSpends(cfg, s, now, jobs[0]);
      LaunchAllIndex(cfg, Launch(cfg, s, now, jobs[0]), now, jobs[1..]);
    }
  }

  /** In every run, a registered job that has not settled has as its index the number of registrations before its own,
      so the jitter of a job is three seconds for each of them. */
  lemma {:induction false} IndexIsOrder(cfg: Config, es: seq<Event>, n: nat, id: JobId)
    requires cfg.intervalMs > 0 && n <= |es|
    ensures var s := Before(cfg, es, n);
      && s.nextIndex == Registrations(es, n) && (id in s.index <==> HasStarted(es, n, id))
      && forall k: nat | LastStart(es, n, id, k) ::
           id in s.index && s.index[id] == Registrations(es, k)
           && Jitter(cfg, s, id) == (Registrations(es, k) * 3000) % cfg.intervalMs
    decreases n
  {
    if n > 0 {
      RunPaced(cfg, es, n - 1, id);
      StepIndex(cfg, Before(cfg, es, n - 1), es[n - 1], id);
      IndexIsOrder(cfg, es, n - 1, id);
      StartedNext(es, n - 1, id);
    } else {
      assert Before(cfg, es, 0) == INITIAL;
    }
  }

  // ----- the summary kept

  /** The call of a task for id fails for good. */
  ghost predicate FailsFor(s: State, e: Event, s': State, id: JobId) {
    (e.CallFailed? || e.BackoffEnded?) && e.task in s.tasks && s.tasks[e.task].id == id && e.task !in s'.tasks
  }

  /** h holds the summary of g, perhaps now stale. */
  ghost predicate SameSummary(g: map<JobId, Entry>, h: map<JobId, Entry>, id: JobId) {
    && (id in h <==> id in g)
    && (id in g ==> h[id].(stale := g[id].stale) == g[id] && (g[id].stale ==> h[id].stale))
  }

  lemma SameSummaryThen(g: map<JobId, Entry>, h: map<JobId, Entry>, k: map<JobId, Entry>, id: JobId)
    requires SameSummary(g, h, id) && SameSummary(h, k, id)
    ensures SameSummary(g, k, id)
  {
  }

  lemma {:induction false} LaunchAllSummary(cfg: Config, s: State, now: int, jobs: seq<RunningJob>, id: JobId)
    requires s.reserved >= |jobs|
    ensures SameSummary(s.summaries, LaunchAll(cfg, s, now, jobs).summaries, id)
    ensures s.signal in s.stopped ==> LaunchAll(cfg, s, now, jobs).summaries == s.summaries
    decreases |jobs|
  {
    if jobs != [] {
      var m := Launch(cfg, s, now, jobs[0]);
      LaunchSpends(cfg, s, now, jobs[0]);
      LaunchAllSummary(cfg, m, now, jobs[1..], id);
      SameSummaryThen(s.summaries, m.summaries, LaunchAll(cfg, s, now, jobs).summaries, id);
    }
  }

  /** What one step does to the summary of a job: a call that returns replaces it by a fresh one, the end of the job
      removes it, a call that failed for good makes it stale unless the summarizer was stopped; its text and its age
      change in no other way. */
  ghost predicate StepKeepsText(cfg: Config, s: State, e: Event, id: JobId)
    requires cfg.intervalMs > 0
  {
    var s' := Step(cfg, s, e);
    if Restores(s, e, id) then
      id in s'.summaries && s'.summaries[id] == Entry(e.text, s.tasks[e.task].now, false)
    else if e == Settled(id) then id !in s'.summaries
    else
      && SameSummary(s.summaries, s'.summaries, id)
      && (s.signal in s.stopped && id in s.summaries ==> s'.summaries[id] == s.summaries[id])
      && (s.signal !in s.stopped && id in s.summaries && FailsFor(s, e, s', id) ==> s'.summaries[id].stale)
  }

  lemma TickKeepsText(cfg: Config, s: State, now: int, jobs: seq<RunningJob>, id: JobId)
    requires cfg.intervalMs > 0
    ensures StepKeepsText(cfg, s, Tick(now, jobs), id)
  {
    ReserveCounts(cfg, s, now, jobs);
    var (r, due) := Reserve(cfg, s, now, jobs);
    LaunchAllSummary(cfg, r, now, due, id);
  }

  lemma StepText(cfg: Config, s: State, e: Event, id: JobId)
    requires cfg.intervalMs > 0
    ensures StepKeepsText(cfg, s, e, id)
  {
    match e
    case Tick(now, jobs) => TickKeepsText(cfg, s, now, jobs, id);
    case _ =>
  }

  /** Event k is the last return of a call for id before event n, and id has not settled since. */
  ghost predicate LastReturn(cfg: Config, es: seq<Event>, n: nat, id: JobId, k: nat)
    requires cfg.intervalMs > 0 && n <= |es|
  {
    && k < n && Restores(Before(cfg, es, k), es[k], id)
    && forall m | k < m < n :: es[m] != Settled(id) && !Restores(Before(cfg, es, m), es[m], id)
  }

  ghost predicate HasReturned(cfg: Config, es: seq<Event>, n: nat, id: JobId)
    requires cfg.intervalMs > 0 && n <= |es|
  {
    exists k :: LastReturn(cfg, es, n, id, k)
  }

  lemma ReturnedNext(cfg: Config, es: seq<Event>, n: nat, id: JobId)
    requires cfg.intervalMs > 0 && n < |es|
    ensures forall k: nat :: LastReturn(cfg, es, n + 1, id, k) <==>
              if Restores(Before(cfg, es, n), es[n], id) then k == n
              else LastReturn(cfg, es, n, id, k) && es[n] != Settled(id)
  {
  }

  /** In every run, a job has a summary exactly when a call for it has returned and it has not settled since; the
      summary holds the text of the last such call and the time its attempt began. */
  lemma {:induction false} SummaryIsLastReturn(cfg: Config, es: seq<Event>, n: nat, id: JobId)
    requires cfg.intervalMs > 0 && n <= |es|
    ensures id in Before(cfg, es, n).summaries <==> HasReturned(cfg, es, n, id)
    ensures forall k: nat | LastReturn(cfg, es, n, id, k) ::
              id in Before(cfg, es, n).summaries &&
              var entry := Before(cfg, es, n).summaries[id];
              entry.text == es[k].text && entry.refreshedAt == Before(cfg, es, k).tasks[es[k].task].now
    decreases n
  {
    if n > 0 {
      RunPaced(cfg, es, n - 1, id);
      StepText(cfg, Before(cfg, es, n - 1), es[n - 1], id);
      SummaryIsLastReturn(cfg, es, n - 1, id);
      ReturnedNext(cfg, es, n - 1, id);
      assert Restores(Before(cfg, es, n - 1), es[n - 1], id) ==> LastReturn(cfg, es, n, id, n - 1);
      assert forall k: nat | LastReturn(cfg, es, n - 1, id, k) && !Restores(Before(cfg, es, n - 1), es[n - 1], id)
        && es[n - 1] != Settled(id) :: LastReturn(cfg, es, n, id, k);
    } else {
      assert Before(cfg, es, 0) == INITIAL;
    }
  }

  // ----- stopping

  /** While the timer runs its signal is live; every task holds that signal or one that was aborted. */
  ghost predicate Stoppable(s: State) {
    && (s.ticking ==> s.signal !in s.stopped) && (forall g | g in s.stopped :: g <= s.signal)
    && forall t | t in s.tasks :: s.tasks[t].signal in s.stopped || (s.ticking && s.tasks[t].signal == s.signal)
  }

  lemma {:induction false} LaunchAllSignals(cfg: Config, s: State, now: int, jobs: seq<RunningJob>)
    requires s.reserved >= |jobs|
    ensures var s' := LaunchAll(cfg, s, now, jobs);
      && s'.ticking == s.ticking && s'.signal == s.signal && s'.stopped == s.stopped
      && forall t | t in s'.tasks :: s'.tasks[t].signal == s.signal || (t in s.tasks && s'.tasks[t] == s.tasks[t])
    decreases |jobs|
  {
    if jobs != [] {
      LaunchSpends(cfg, s, now, jobs[0]);
      LaunchAllSignals(cfg, Launch(cfg, s, now, jobs[0]), now, jobs[1..]);
    }
  }

  /** Ticks come from the timer. */
  predicate Timed(s: State, e: Event) {
    e.Tick? ==> s.ticking
  }

  lemma StepStoppable(cfg: Config, s: State, e: Event)
    requires cfg.intervalMs > 0 && Stoppable(s) && Timed(s, e)
    ensures Stoppable(Step(cfg, s, e))
  {
    if e.Tick? {
      ReserveCounts(cfg, s, e.now, e.jobs);
      var (r, due) := Reserve(cfg, s, e.now, e.jobs);
      LaunchAllSignals(cfg, r, e.now, due);
    }
  }

  lemma {:induction false} RunStoppable(cfg: Config, es: seq<Event>, n: nat)
    requires cfg.intervalMs > 0 && n <= |es|
    requires forall k: nat | k < n :: Timed(Before(cfg, es, k), es[k])
    ensures Stoppable(Before(cfg, es, n))
    decreases n
  {
    if n > 0 {
      RunPaced(cfg, es, n - 1, "");
      RunStoppable(cfg, es, n - 1);
      StepStoppable(cfg, Before(cfg, es, n - 1), es[n - 1]);
    } else {
      assert Before(cfg, es, 0) == INITIAL;
    }
  }

  /** In every run whose ticks come from the timer: while it is stopped, whatever calls and backoffs are still pending,
      no event but the next start makes a model call, charges the budget or touches a summary, unless it is the return
      of a call already made or the end of a job. */
  lemma {:induction false} StopSilences(cfg: Config, es: seq<Event>, n: nat)
    requires cfg.intervalMs > 0 && n < |es|
    requires forall k: nat | k <= n :: Timed(Before(cfg, es, k), es[k])
    requires !Before(cfg, es, n).ticking && es[n] != Start
    ensures var s, s' := Before(cfg, es, n), Before(cfg, es, n + 1);
      && s'.llmCalls == s.llmCalls && s'.calls == s.calls && !s'.ticking
      && s'.tasks.Keys <= s.tasks.Keys
      && (!es[n].Returned? && !es[n].Settled? && s.signal in s.stopped ==> s'.summaries == s.summaries)
  {
    RunPaced(cfg, es, n, "");
    RunStoppable(cfg, es, n);
  }
}
