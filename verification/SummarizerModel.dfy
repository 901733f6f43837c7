/**
  The call budget of the background summarizer as a state machine. A step is what runs between two awaits:
  a whole tick up to its `Promise.allSettled`, the return or failure of one model call, the end of one backoff.
 */
module SummarizerModel {
  import opened Text

  type JobId = string

  datatype Entry = Entry(text: string, refreshedAt: int, stale: bool)

  /** What getTranscript yields: nothing, a text, or an exception. */
  datatype Transcript = NoTranscript | Tail(text: string) | Throws

  datatype RunningJob = RunningJob(id: JobId, transcript: Transcript)

  /** A suspended refreshJob: in its first model call, in the retry backoff, in its second call, or about to fail
      because its signal was aborted before the first call. It holds the signal it was started with. */
  datatype Phase = First | Backoff | Second | Doomed
  datatype Task = Task(id: JobId, now: int, signal: nat, phase: Phase)

  datatype Config = Config(maxCalls: int, intervalMs: int, retries: bool)

  /** attempts, retried, suppressed and llmCalls count what happened; the source keeps only `calls`. */
  datatype State = State(
    calls: int,
    reserved: nat, attempts: nat, retried: nat, suppressed: nat, llmCalls: nat,
    tasks: map<nat, Task>, nextTask: nat,
    index: map<JobId, nat>, nextIndex: nat,
    lastRefreshed: map<JobId, int>, summaries: map<JobId, Entry>,
    ticking: bool, signal: nat, stopped: set<nat>)

  const JITTER_MS := 3000

  const INITIAL := State(0, 0, 0, 0, 0, 0, map[], 0, map[], 0, map[], map[], false, 0, {})

  datatype Event =
    | Start
    | Stop
    | Tick(now: int, jobs: seq<RunningJob>)
    /** The model call of a task resolved with this text, after trim. */
    | Returned(task: nat, text: string)
    | CallFailed(task: nat, retryable: bool)
    | BackoffEnded(task: nat)
    | Started(id: JobId)
    | Settled(id: JobId)

  // ----- tick

  function MinAge(cfg: Config, s: State, id: JobId): int
    requires cfg.intervalMs > 0
  {
    var idx := if id in s.index then s.index[id] else 0;
    cfg.intervalMs - 1000 - (idx * JITTER_MS) % cfg.intervalMs
  }

  predicate Due(cfg: Config, s: State, now: int, id: JobId)
    requires cfg.intervalMs > 0
  {
    now - (if id in s.lastRefreshed then s.lastRefreshed[id] else 0) >= MinAge(cfg, s, id)
  }

  function Charge(s: State, n: nat): State {
    s.(calls := s.calls + n, reserved := s.reserved + n)
  }

  /** The first loop of tick: one reservation for each due job, in order, while the budget lasts. */
  function Reserve(cfg: Config, s: State, now: int, jobs: seq<RunningJob>): (State, seq<RunningJob>)
    requires cfg.intervalMs > 0
    decreases |jobs|
  {
    if jobs == [] then (s, [])
    else if !Due(cfg, s, now, jobs[0].id) || s.calls >= cfg.maxCalls then Reserve(cfg, s, now, jobs[1..])
    else
      var (s', due) := Reserve(cfg, Charge(s, 1), now, jobs[1..]);
      (s', [jobs[0]] + due)
  }

  predicate HasText(t: Transcript) {
    t.Tail? && !Blank(t.text)
  }

  function Suspend(s: State, t: Task): State {
    s.(tasks := s.tasks[s.nextTask := t], nextTask := s.nextTask + 1)
  }

  function GiveBack(s: State): State
    requires s.reserved > 0
  {
    s.(calls := s.calls - 1, reserved := s.reserved - 1)
  }

  function Begin(s: State, id: JobId, now: int): State
    requires s.reserved > 0
  {
    s.(reserved := s.reserved - 1, attempts := s.attempts + 1, lastRefreshed := s.lastRefreshed[id := now])
  }

  /** The catch block: the last good text is kept and marked stale, unless the current signal is aborted. */
  function MarkStale(s: State, id: JobId): State {
    if s.signal !in s.stopped && id in s.summaries then
      s.(summaries := s.summaries[id := s.summaries[id].(stale := true)])
    else s
  }

  /** The synchronous prefix of refreshJob: it gives its reservation back, or spends it on an attempt. A transcript
      read that throws goes through the catch block first. A retry wrapper whose signal is already aborted throws
      before the model is called. */
  function Launch(cfg: Config, s: State, now: int, job: RunningJob): State
    requires s.reserved > 0
  {
    if job.transcript.Throws? then GiveBack(MarkStale(s, job.id))
    else if !HasText(job.transcript) then GiveBack(s)
    else
      var s1 := Begin(s, job.id, now);
      if cfg.retries && s.signal in s.stopped then
        Suspend(s1.(suppressed := s1.suppressed + 1), Task(job.id, now, s.signal, Doomed))
      else Suspend(s1.(llmCalls := s1.llmCalls + 1), Task(job.id, now, s.signal, First))
  }

  lemma LaunchSpends(cfg: Config, s: State, now: int, job: RunningJob)
    requires s.reserved > 0
    ensures Launch(cfg, s, now, job).reserved == s.reserved - 1
  {
  }

  function LaunchAll(cfg: Config, s: State, now: int, jobs: seq<RunningJob>): State
    requires s.reserved >= |jobs|
    decreases |jobs|
  {
    if jobs == [] then s else LaunchAll(cfg, Launch(cfg, s, now, jobs[0]), now, jobs[1..])
  }

  lemma ChargeMore(s: State, n: nat)
    ensures Charge(Charge(s, 1), n) == Charge(s, n + 1)
    ensures Charge(s, 0) == s
  {
  }

  lemma {:induction false} ReserveCounts(cfg: Config, s: State, now: int, jobs: seq<RunningJob>)
    requires cfg.intervalMs > 0
    ensures var (s', due) := Reserve(cfg, s, now, jobs);
      && s' == Charge(s, |due|)
      && (due != [] ==> s.calls + |due| <= cfg.maxCalls)
    decreases |jobs|
  {
    ChargeMore(s, 0);
    if jobs != [] {
      if !Due(cfg, s, now, jobs[0].id) || s.calls >= cfg.maxCalls {
        ReserveCounts(cfg, s, now, jobs[1..]);
      } else {
        var s1 := Charge(s, 1);
        var due := Reserve(cfg, s1, now, jobs[1..]).1;
        ReserveCounts(cfg, s1, now, jobs[1..]);
        ChargeMore(s, |due|);
        assert Reserve(cfg, s, now, jobs) == (Charge(s1, |due|), [jobs[0]] + due);
      }
    }
  }

  // ----- the other steps

  /** The call of a task failed for good. */
  function Fail(s: State, task: nat): State
    requires task in s.tasks
  {
    MarkStale(s.(tasks := s.tasks - {task}), s.tasks[task].id)
  }

  function Retry(s: State, task: nat): State
    requires task in s.tasks
  {
    s.(calls := s.calls + 1, retried := s.retried + 1, tasks := s.tasks[task := s.tasks[task].(phase := Backoff)])
  }

  function CallAgain(s: State, task: nat): State
    requires task in s.tasks
  {
    s.(llmCalls := s.llmCalls + 1, tasks := s.tasks[task := s.tasks[task].(phase := Second)])
  }

  function StepCallFailed(cfg: Config, s: State, task: nat, retryable: bool): State {
    if task !in s.tasks || s.tasks[task].phase == Backoff then s
    else if s.tasks[task].phase == First && cfg.retries && retryable && s.tasks[task].signal !in s.stopped then
      Retry(s, task)
    else Fail(s, task)
  }

  function StepBackoffEnded(s: State, task: nat): State {
    if task !in s.tasks || s.tasks[task].phase != Backoff then s
    else if s.tasks[task].signal in s.stopped then Fail(s.(suppressed := s.suppressed + 1), task)
    else CallAgain(s, task)
  }

  function Step(cfg: Config, s: State, e: Event): State
    requires cfg.intervalMs > 0
  {
    match e
    case Start => if s.ticking then s else s.(ticking := true, signal := s.signal + 1)
    case Stop => s.(ticking := false, stopped := s.stopped + {s.signal})
    case Tick(now, jobs) =>
      var (s1, due) := Reserve(cfg, s, now, jobs);
      ReserveCounts(cfg, s, now, jobs);
      LaunchAll(cfg, s1, now, due)
    case Returned(task, text) =>
      if task !in s.tasks || s.tasks[task].phase !in {First, Second} then s
      else
        var t := s.tasks[task];
        s.(tasks := s.tasks - {task}, summaries := s.summaries[t.id := Entry(text, t.now, false)])
    case CallFailed(task, retryable) => StepCallFailed(cfg, s, task, retryable)
    case BackoffEnded(task) => StepBackoffEnded(s, task)
    case Started(id) => s.(index := s.index[id := s.nextIndex], nextIndex := s.nextIndex + 1)
    case Settled(id) =>
      s.(summaries := s.summaries - {id}, index := s.index - {id}, lastRefreshed := s.lastRefreshed - {id})
  }

  function Run(cfg: Config, s: State, es: seq<Event>): State
    requires cfg.intervalMs > 0
    decreases |es|
  {
    if es == [] then s else Run(cfg, Step(cfg, s, es[0]), es[1..])
  }
}
