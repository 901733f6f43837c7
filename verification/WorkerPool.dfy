/** The pool as it runs: a shared index and one loop per worker. */
module WorkerPool {
  import opened Wrappers
  import opened PoolModel

  class RunConcurrent<T> {
    const items: seq<Option<T>>
    var idx: nat
    var workers: seq<Worker>
    ghost var calls: seq<nat>
    ghost var done: set<nat>

    ghost function View(): Pool
      reads this
    {
      Pool(idx, workers, calls, done)
    }

    constructor (items: seq<Option<T>>, concurrency: nat)
      ensures this.items == items && View() == Launch(items, concurrency)
      ensures Sound(items, concurrency, View())
    {
      this.items := items;
      idx, workers, calls, done := 0, [], [], {};
      new;
      for n := 0 to concurrency
        invariant View() == Launch(items, n)
      {
        var w := Continue();
        workers := workers + [w];
      }
      LaunchSound(items, concurrency);
    }

    /** A worker from the head of its loop to its next await or its end. */
    method Continue() returns (w: Worker)
      modifies this`idx, this`calls
      ensures w == Claim(items, old(idx)) && idx == After(items, old(idx))
      ensures calls == old(calls) + Calls(w)
    {
      w := Finished;
      if idx < |items| {
        var current := items[idx];
        idx := idx + 1;
        if current.None? {
          w := Broke(idx - 1);
        } else {
          w := Busy(idx - 1);
          calls := calls + [idx - 1];
        }
      }
    }

    /** The call a worker waits for has settled. */
    method Resume(worker: nat, ok: bool)
      requires Enabled(View(), Settle(worker, ok)) && Sound(items, |workers|, View())
      modifies this
      ensures View() == Apply(items, old(View()), Settle(worker, ok))
      ensures Sound(items, |workers|, View())
    {
      StepSound(items, |workers|, View(), Settle(worker, ok));
      var at := workers[worker].at;
      if ok {
        done := done + {at};
        var w := Continue();
        workers := workers[worker := w];
      } else {
        workers := workers[worker := Failed(at)];
      }
    }
  }
}
