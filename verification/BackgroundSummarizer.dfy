/** The summarizer object, updated in place; each method is one step of SummarizerModel. */
module BackgroundSummarizerClass {
  import opened SummarizerModel
  import opened SummarizerBudget

  class BackgroundSummarizer {
    const cfg: Config
    var callsThisSession: int
    var jobIndexMap: map<JobId, nat>
    var jobIndexCounter: nat
    var lastRefreshedAt: map<JobId, int>
    var summaries: map<JobId, Entry>
    var ticking: bool
    /** The current abort signal, and those already aborted. */
    var signal: nat
    var stopped: set<nat>
    /** Suspended refreshes. */
    var tasks: map<nat, Task>
    var nextTask: nat

    ghost var reserved: nat
    ghost var attempts: nat
    ghost var retried: nat
    ghost var suppressed: nat
    ghost var llmCalls: nat

    ghost function View(): State
      reads this
    {
      State(callsThisSession, reserved, attempts, retried, suppressed, llmCalls, tasks, nextTask,
            jobIndexMap, jobIndexCounter, lastRefreshedAt, summaries, ticking, signal, stopped)
    }

    ghost predicate Valid()
      reads this
    {
      cfg.intervalMs > 0 && Balanced(cfg, View()) && reserved == 0
    }

    constructor (cfg: Config)
      requires cfg.intervalMs > 0
      ensures Valid() && this.cfg == cfg && View() == INITIAL
    {
      this.cfg := cfg;
      callsThisSession, jobIndexMap, jobIndexCounter := 0, map[], 0;
      lastRefreshedAt, summaries := map[], map[];
      ticking, signal, stopped := false, 0, {};
      tasks, nextTask := map[], 0;
      reserved, attempts, retried, suppressed, llmCalls := 0, 0, 0, 0, 0;
      new;
      assert InPhase(View(), First) == {} && InPhase(View(), Backoff) == {};
    }

    method Start()
      requires Valid()
      modifies this
      ensures Valid() && View() == Step(cfg, old(View()), Event.Start)
    {
      StepBalanced(cfg, View(), Event.Start);
      if !ticking {
        ticking, signal := true, signal + 1;
      }
    }

    method Stop()
      requires Valid()
      modifies this
      ensures Valid() && View() == Step(cfg, old(View()), Event.Stop)
    {
      StepBalanced(cfg, View(), Event.Stop);
      ticking := false;
      stopped := stopped + {signal};
    }

    method OnStarted(id: JobId)
      requires Valid()
      modifies this
      ensures Valid() && View() == Step(cfg, old(View()), Started(id))
    {
      StepBalanced(cfg, View(), Started(id));
      jobIndexMap, jobIndexCounter := jobIndexMap[id := jobIndexCounter], jobIndexCounter + 1;
    }

    method OnSettled(id: JobId)
      requires Valid()
      modifies this
      ensures Valid() && View() == Step(cfg, old(View()), Settled(id))
    {
      StepBalanced(cfg, View(), Settled(id));
      summaries := summaries - {id};
      jobIndexMap := jobIndexMap - {id};
      lastRefreshedAt := lastRefreshedAt - {id};
    }

    /** Reserves a slot for each due job while the budget lasts, then starts all of them. */
    method Tick(now: int, runningJobs: seq<RunningJob>)
      requires Valid()
      modifies this
      ensures Valid() && View() == Step(cfg, old(View()), Event.Tick(now, runningJobs))
    {
      StepBalanced(cfg, View(), Event.Tick(now, runningJobs));
      ghost var s0 := View();
      ReserveCounts(cfg, s0, now, runningJobs);
      var due := ReserveSlots(now, runningJobs);
      RefreshAll(now, due);
    }

    method RefreshAll(now: int, due: seq<RunningJob>)
      requires reserved >= |due|
      modifies this
      ensures View() == LaunchAll(cfg, old(View()), now, due)
    {
      ghost var s := View();
      var i := 0;
      while i < |due|
        invariant i <= |due| && reserved >= |due| - i
        invariant LaunchAll(cfg, View(), now, due[i..]) == LaunchAll(cfg, s, now, due)
      {
        assert due[i..][1..] == due[i + 1..];
        LaunchSpends(cfg, View(), now, due[i]);
        RefreshJob(now, due[i]);
        i := i + 1;
      }
    }

    method ReserveSlots(now: int, runningJobs: seq<RunningJob>) returns (due: seq<RunningJob>)
      requires Valid()
      modifies this`callsThisSession, this`reserved
      ensures (View(), due) == Reserve(cfg, old(View()), now, runningJobs) && reserved == |due|
    {
      ghost var s0 := View();
      due := [];
      var i := 0;
      assert runningJobs[0..] == runningJobs;
      ghost var all := Reserve(cfg, s0, now, runningJobs).1;
      assert [] + all == all;
      while i < |runningJobs|
        invariant i <= |runningJobs| && reserved == |due|
        invariant var (s, rest) := Reserve(cfg, View(), now, runningJobs[i..]);
                  Reserve(cfg, s0, now, runningJobs) == (s, due + rest)
      {
        assert runningJobs[i..][1..] == runningJobs[i + 1..];
        var job := runningJobs[i];
        ghost var rest := Reserve(cfg, View(), now, runningJobs[i..]).1;
        if Due(cfg, Snapshot(), now, job.id) && callsThisSession < cfg.maxCalls {
          callsThisSession := callsThisSession + 1;
          reserved := reserved + 1;
          assert due + rest == (due + [job]) + rest[1..];
          due := due + [job];
        }
        i := i + 1;
      }
      assert due + [] == due;
    }

    /** The fields the cadence test reads. */
    function Snapshot(): (s: State)
      reads this
      ensures s.index == jobIndexMap && s.lastRefreshed == lastRefreshedAt
    {
      INITIAL.(index := jobIndexMap, lastRefreshed := lastRefreshedAt)
    }

    method RefreshJob(now: int, job: RunningJob)
      requires reserved > 0
      modifies this
      ensures View() == Launch(cfg, old(View()), now, job)
    {
      if job.transcript.Throws? {
        Stale(job.id);
        ReleaseReservation();
        return;
      }
      if !HasText(job.transcript) {
        ReleaseReservation();
        return;
      }
      BeginAttempt(job.id, now);
      if cfg.retries && signal in stopped {
        suppressed := suppressed + 1;
        AddTask(Task(job.id, now, signal, Doomed));
      } else {
        llmCalls := llmCalls + 1;
        AddTask(Task(job.id, now, signal, First));
      }
    }

    method ReleaseReservation()
      requires reserved > 0
      modifies this`reserved, this`callsThisSession
      ensures View() == GiveBack(old(View()))
    {
      reserved := reserved - 1;
      callsThisSession := callsThisSession - 1;
    }

    method BeginAttempt(id: JobId, now: int)
      requires reserved > 0
      modifies this`reserved, this`attempts, this`lastRefreshedAt
      ensures View() == Begin(old(View()), id, now)
    {
      reserved := reserved - 1;
      attempts := attempts + 1;
      lastRefreshedAt := lastRefreshedAt[id := now];
    }

    method AddTask(t: Task)
      modifies this`tasks, this`nextTask
      ensures View() == Suspend(old(View()), t)
    {
      tasks := tasks[nextTask := t];
      nextTask := nextTask + 1;
    }

    method OnReturned(task: nat, text: string)
      requires Valid()
      modifies this
      ensures Valid() && View() == Step(cfg, old(View()), Returned(task, text))
    {
      StepBalanced(cfg, View(), Returned(task, text));
      if task in tasks && tasks[task].phase in {First, Second} {
        var t := tasks[task];
        tasks := tasks - {task};
        summaries := summaries[t.id := Entry(text, t.now, false)];
      }
    }

    method OnCallFailed(task: nat, retryable: bool)
      requires Valid()
      modifies this
      ensures Valid() && View() == Step(cfg, old(View()), CallFailed(task, retryable))
    {
      StepBalanced(cfg, View(), CallFailed(task, retryable));
      RetryOrFail(task, retryable);
    }

    method RetryOrFail(task: nat, retryable: bool)
      modifies this
      ensures View() == StepCallFailed(cfg, old(View()), task, retryable)
    {
      if task in tasks && tasks[task].phase != Backoff {
        var t := tasks[task];
        if t.phase == First && cfg.retries && retryable && t.signal !in stopped {
          OnRetry(task);
        } else {
          GiveUp(task);
        }
      }
    }

    /** The retry is charged without a look at the cap. */
    method OnRetry(task: nat)
      requires task in tasks
      modifies this`callsThisSession, this`retried, this`tasks
      ensures View() == Retry(old(View()), task)
    {
      callsThisSession := callsThisSession + 1;
      retried := retried + 1;
      tasks := tasks[task := tasks[task].(phase := Backoff)];
    }

    method OnBackoffEnded(task: nat)
      requires Valid()
      modifies this
      ensures Valid() && View() == Step(cfg, old(View()), BackoffEnded(task))
    {
      StepBalanced(cfg, View(), BackoffEnded(task));
      ResumeAfterBackoff(task);
    }

    method ResumeAfterBackoff(task: nat)
      modifies this
      ensures View() == StepBackoffEnded(old(View()), task)
    {
      if task in tasks && tasks[task].phase == Backoff {
        if tasks[task].signal in stopped {
          suppressed := suppressed + 1;
          GiveUp(task);
        } else {
          SecondCall(task);
        }
      }
    }

    method SecondCall(task: nat)
      requires task in tasks
      modifies this`llmCalls, this`tasks
      ensures View() == CallAgain(old(View()), task)
    {
      llmCalls := llmCalls + 1;
      tasks := tasks[task := tasks[task].(phase := Second)];
    }

    /** The catch block of a refresh. */
    method Stale(id: JobId)
      modifies this`summaries
      ensures View() == MarkStale(old(View()), id)
    {
      if signal !in stopped && id in summaries {
        summaries := summaries[id := summaries[id].(stale := true)];
      }
    }

    method GiveUp(task: nat)
      requires task in tasks
      modifies this`tasks, this`summaries
      ensures View() == Fail(old(View()), task)
    {
      var t := tasks[task];
      tasks := tasks - {task};
      Stale(t.id);
    }
  }
}
