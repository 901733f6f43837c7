/**
  The bounded worker pool as a state machine. A worker runs without a break from one await to the next, so a step is
  one settled call of the item function. An item may be undefined (None), which stops the worker that claims it.
 */
module PoolModel {
  import opened Wrappers

  datatype Worker = Busy(at: nat) | Finished | Broke(at: nat) | Failed(at: nat)

  /** calls lists the items the function was called with, in call order; done holds those that have resolved. */
  datatype Pool = Pool(idx: nat, workers: seq<Worker>, calls: seq<nat>, done: set<nat>)

  /** What a worker becomes when it comes to the head of its loop. */
  function Claim<T>(items: seq<Option<T>>, idx: nat): Worker {
    if idx >= |items| then Finished else if items[idx].None? then Broke(idx) else Busy(idx)
  }

  function After<T>(items: seq<Option<T>>, idx: nat): nat {
    if idx < |items| then idx + 1 else idx
  }

  function Calls(w: Worker): seq<nat> {
    if w.Busy? then [w.at] else []
  }

  /** The pool once n workers have been started, one after the other. */
  function Launch<T>(items: seq<Option<T>>, n: nat): Pool {
    if n == 0 then Pool(0, [], [], {})
    else
      var p := Launch(items, n - 1);
      var w := Claim(items, p.idx);
      Pool(After(items, p.idx), p.workers + [w], p.calls + Calls(w), {})
  }

  datatype Step = Settle(worker: nat, ok: bool)

  predicate Enabled(p: Pool, s: Step) {
    s.worker < |p.workers| && p.workers[s.worker].Busy?
  }

  function Apply<T>(items: seq<Option<T>>, p: Pool, s: Step): Pool
    requires Enabled(p, s)
  {
    var at := p.workers[s.worker].at;
    if !s.ok then p.(workers := p.workers[s.worker := Failed(at)])
    else
      var w := Claim(items, p.idx);
      Pool(After(items, p.idx), p.workers[s.worker := w], p.calls + Calls(w), p.done + {at})
  }

  ghost predicate Reaches<T>(items: seq<Option<T>>, p: Pool, run: seq<Step>, q: Pool)
    decreases |run|
  {
    if run == [] then p == q
    else Enabled(p, run[0]) && Reaches(items, Apply(items, p, run[0]), run[1..], q)
  }

  predicate Quiet(p: Pool) {
    forall w | w in p.workers :: !w.Busy?
  }

  // ----- counting

  datatype Kind = Running | Broken | Rejected | Ended

  function KindOf(w: Worker): Kind {
    match w
    case Busy(_) => Running
    case Finished => Ended
    case Broke(_) => Broken
    case Failed(_) => Rejected
  }

  function Tally(ws: seq<Worker>, k: Kind): nat {
    if ws == [] then 0 else Tally(ws[..|ws| - 1], k) + (if KindOf(ws[|ws| - 1]) == k then 1 else 0)
  }

  /** The indices of the defined items among the first n. */
  function Present<T>(items: seq<Option<T>>, n: nat): seq<nat>
    requires n <= |items|
  {
    if n == 0 then [] else Present(items, n - 1) + (if items[n - 1].Some? then [n - 1] else [])
  }

  /** How many of the first n items are undefined. */
  function Holes<T>(items: seq<Option<T>>, n: nat): nat
    requires n <= |items|
  {
    if n == 0 then 0 else Holes(items, n - 1) + (if items[n - 1].None? then 1 else 0)
  }

  lemma {:induction false} TallyAppend(ws: seq<Worker>, w: Worker, k: Kind)
    ensures Tally(ws + [w], k) == Tally(ws, k) + if KindOf(w) == k then 1 else 0
  {
    assert (ws + [w])[..|ws|] == ws;
  }

  lemma {:induction false} TallyUpdate(ws: seq<Worker>, i: nat, w: Worker, k: Kind)
    requires i < |ws|
    ensures Tally(ws[i := w], k) ==
              Tally(ws, k) - (if KindOf(ws[i]) == k then 1 else 0) + (if KindOf(w) == k then 1 else 0)
  {
    var n := |ws| - 1;
    if i < n {
      TallyUpdate(ws[..n], i, w, k);
      assert ws[i := w][..n] == ws[..n][i := w];
    } else {
      assert ws[i := w][..n] == ws[..n];
    }
  }

  lemma {:induction false} TallyAll(ws: seq<Worker>)
    ensures Tally(ws, Running) + Tally(ws, Broken) + Tally(ws, Rejected) + Tally(ws, Ended) == |ws|
  {
    if ws != [] {
      TallyAll(ws[..|ws| - 1]);
    }
  }

  lemma {:induction false} TallyNone(ws: seq<Worker>, k: Kind)
    ensures Tally(ws, k) == 0 <==> forall w | w in ws :: KindOf(w) != k
  {
    if ws != [] {
      var n := |ws| - 1;
      TallyNone(ws[..n], k);
      assert ws == ws[..n] + [ws[n]];
    }
  }

  lemma {:induction false} PresentAre<T>(items: seq<Option<T>>, n: nat)
    requires n <= |items|
    ensures forall i: nat :: i in Present(items, n) <==> i < n && items[i].Some?
    ensures forall a, b | 0 <= a < b < |Present(items, n)| :: Present(items, n)[a] < Present(items, n)[b]
    ensures |Present(items, n)| + Holes(items, n) == n
  {
    if n > 0 {
      PresentAre(items, n - 1);
      var before := Present(items, n - 1);
      assert forall a | 0 <= a < |before| :: before[a] in before;
    }
  }

  lemma {:induction false} HolesGrow<T>(items: seq<Option<T>>, m: nat, n: nat)
    requires m <= n <= |items|
    ensures Holes(items, m) <= Holes(items, n)
  {
    if m < n {
      HolesGrow(items, m, n - 1);
    }
  }

  // ----- what every reachable pool keeps

  predicate HasItem(w: Worker) {
    w.Busy? || w.Failed?
  }

  ghost predicate Held(ws: seq<Worker>, i: nat) {
    exists a :: 0 <= a < |ws| && HasItem(ws[a]) && ws[a].at == i
  }

  ghost predicate Claimed<T>(items: seq<Option<T>>, idx: nat, i: nat) {
    i < idx && i < |items| && items[i].Some?
  }

  /** Items held by workers are claimed, not resolved, and held by one worker each. */
  ghost predicate Separate<T>(items: seq<Option<T>>, p: Pool) {
    && (forall a | 0 <= a < |p.workers| && HasItem(p.workers[a]) ::
          Claimed(items, p.idx, p.workers[a].at) && p.workers[a].at !in p.done)
    && (forall a, b | 0 <= a < b < |p.workers| && HasItem(p.workers[a]) && HasItem(p.workers[b]) ::
          p.workers[a].at != p.workers[b].at)
  }

  /** Every call so far is in exactly one place: resolved, or held by the one worker that runs or rejected it. */
  ghost predicate Placed<T>(items: seq<Option<T>>, p: Pool) {
    && Separate(items, p)
    && (forall i: nat | i in p.done :: Claimed(items, p.idx, i))
    && (forall i: nat | Claimed(items, p.idx, i) :: i in p.done || Held(p.workers, i))
  }

  ghost predicate Counts<T>(items: seq<Option<T>>, n: nat, p: Pool) {
    && |p.workers| == n && p.idx <= |items|
    && p.calls == Present(items, p.idx)
    && Tally(p.workers, Broken) == Holes(items, p.idx)
    && (Tally(p.workers, Ended) > 0 ==> p.idx == |items|)
    && (p.idx > 0 ==> Holes(items, p.idx - 1) < n)
  }

  ghost predicate Sound<T>(items: seq<Option<T>>, n: nat, p: Pool) {
    Counts(items, n, p) && Placed(items, p)
  }

  lemma AppendCounts<T>(items: seq<Option<T>>, n: nat, p: Pool, w: Worker, q: Pool)
    requires Counts(items, n, p) && w == Claim(items, p.idx)
    requires q.idx == After(items, p.idx) && q.workers == p.workers + [w] && q.calls == p.calls + Calls(w)
    ensures Counts(items, n + 1, q)
    ensures Tally(q.workers, Running) + |p.calls| == Tally(p.workers, Running) + |q.calls|
  {
    TallyAppend(p.workers, w, Broken);
    TallyAppend(p.workers, w, Ended);
    TallyAppend(p.workers, w, Running);
    TallyAll(p.workers);
  }

  lemma {:induction false} LaunchCounts<T>(items: seq<Option<T>>, n: nat)
    ensures Counts(items, n, Launch(items, n))
    ensures Tally(Launch(items, n).workers, Running) == |Launch(items, n).calls|
  {
    if n == 0 {
      var p := Launch(items, 0);
      assert p.workers == [] && p.calls == [] && p.idx == 0;
    } else {
      LaunchCounts(items, n - 1);
      var p := Launch(items, n - 1);
      AppendCounts(items, n - 1, p, Claim(items, p.idx), Launch(items, n));
    }
  }

  lemma AppendPlaced<T>(items: seq<Option<T>>, p: Pool, w: Worker, q: Pool)
    requires p.idx <= |items| && Placed(items, p) && w == Claim(items, p.idx)
    requires q.idx == After(items, p.idx) && q.workers == p.workers + [w] && q.done == p.done
    ensures Placed(items, q)
  {
    forall i: nat | Claimed(items, q.idx, i) ensures i in q.done || Held(q.workers, i) {
      HeldAppend(p.workers, w, i);
    }
  }

  lemma {:induction false} LaunchSound<T>(items: seq<Option<T>>, n: nat)
    ensures Sound(items, n, Launch(items, n))
  {
    LaunchCounts(items, n);
    if n > 0 {
      LaunchSound(items, n - 1);
      var p := Launch(items, n - 1);
      AppendPlaced(items, p, Claim(items, p.idx), Launch(items, n));
    }
  }

  lemma HeldAppend(ws: seq<Worker>, w: Worker, i: nat)
    ensures Held(ws, i) ==> Held(ws + [w], i)
    ensures HasItem(w) ==> Held(ws + [w], w.at)
  {
    if Held(ws, i) {
      var a :| 0 <= a < |ws| && HasItem(ws[a]) && ws[a].at == i;
      assert (ws + [w])[a] == ws[a];
    }
    assert (ws + [w])[|ws|] == w;
  }

  lemma HeldUpdate(ws: seq<Worker>, k: nat, w: Worker, i: nat)
    requires k < |ws|
    ensures Held(ws, i) && !(HasItem(ws[k]) && ws[k].at == i) ==> Held(ws[k := w], i)
    ensures HasItem(w) ==> Held(ws[k := w], w.at)
  {
    assert ws[k := w][k] == w;
    if Held(ws, i) && !(HasItem(ws[k]) && ws[k].at == i) {
      var a :| 0 <= a < |ws| && HasItem(ws[a]) && ws[a].at == i;
      assert ws[k := w][a] == ws[a];
    }
  }

  lemma PlacedStep<T>(items: seq<Option<T>>, p: Pool, s: Step)
    requires p.idx <= |items| && Placed(items, p) && Enabled(p, s)
    ensures Placed(items, Apply(items, p, s))
  {
    var q := Apply(items, p, s);
    forall i: nat | Claimed(items, q.idx, i) ensures i in q.done || Held(q.workers, i) {
      HeldUpdate(p.workers, s.worker, q.workers[s.worker], i);
    }
  }

  lemma CountsStep<T>(items: seq<Option<T>>, n: nat, p: Pool, s: Step)
    requires Counts(items, n, p) && Enabled(p, s)
    ensures var q := Apply(items, p, s);
      && Counts(items, n, q)
      && Tally(q.workers, Running) + |p.calls| + 1 == Tally(p.workers, Running) + |q.calls|
  {
    var w := Apply(items, p, s).workers[s.worker];
    TallyUpdate(p.workers, s.worker, w, Broken);
    TallyUpdate(p.workers, s.worker, w, Ended);
    TallyUpdate(p.workers, s.worker, w, Running);
    TallyAll(p.workers);
    TallyNone(p.workers, Running);
    assert p.workers[s.worker] in p.workers;
  }

  lemma StepSound<T>(items: seq<Option<T>>, n: nat, p: Pool, s: Step)
    requires Sound(items, n, p) && Enabled(p, s)
    ensures Sound(items, n, Apply(items, p, s))
  {
    CountsStep(items, n, p, s);
    PlacedStep(items, p, s);
  }

  /** Every run of the pool stays sound, and each settled call was made once, so a run has at most one step for
      each defined item: it always comes to an end. */
  lemma {:induction false} RunSound<T>(items: seq<Option<T>>, n: nat, p: Pool, run: seq<Step>, q: Pool)
    requires Sound(items, n, p) && Reaches(items, p, run, q)
    ensures Sound(items, n, q)
    ensures |run| + Tally(q.workers, Running) + |p.calls| == Tally(p.workers, Running) + |q.calls|
    decreases |run|
  {
    if run != [] {
      CountsStep(items, n, p, run[0]);
      StepSound(items, n, p, run[0]);
      RunSound(items, n, Apply(items, p, run[0]), run[1..], q);
    }
  }

  lemma {:induction false} Reached<T>(items: seq<Option<T>>, n: nat, run: seq<Step>, q: Pool)
    requires Reaches(items, Launch(items, n), run, q)
    ensures Sound(items, n, q) && |run| + Tally(q.workers, Running) == |q.calls|
  {
    LaunchSound(items, n);
    LaunchCounts(items, n);
    RunSound(items, n, Launch(items, n), run, q);
  }

  /** From the launch on, the items are called in order, each at most once, and calls are settled or still running. */
  lemma {:induction false} CallsInOrder<T>(items: seq<Option<T>>, n: nat, run: seq<Step>, q: Pool)
    requires Reaches(items, Launch(items, n), run, q)
    ensures q.idx <= |items| && q.calls == Present(items, q.idx)
    ensures forall a, b | 0 <= a < b < |q.calls| :: q.calls[a] < q.calls[b]
    ensures |run| + Tally(q.workers, Running) == |q.calls| <= |items|
    ensures Tally(q.workers, Running) <= n
  {
    Reached(items, n, run, q);
    PresentAre(items, q.idx);
    TallyAll(q.workers);
  }

  /** While an item is unclaimed, every worker that has met no undefined item and no rejection is busy. */
  lemma {:induction false} NoWorkerIdles<T>(items: seq<Option<T>>, n: nat, run: seq<Step>, q: Pool)
    requires Reaches(items, Launch(items, n), run, q) && q.idx < |items|
    ensures Tally(q.workers, Running) == n - Tally(q.workers, Broken) - Tally(q.workers, Rejected)
  {
    Reached(items, n, run, q);
    TallyAll(q.workers);
  }

  lemma {:induction false} QuietCount(ws: seq<Worker>)
    requires forall w | w in ws :: !w.Busy?
    ensures Tally(ws, Running) == 0
  {
    TallyNone(ws, Running);
  }

  lemma QuietItem<T>(items: seq<Option<T>>, q: Pool, i: nat)
    requires Placed(items, q) && Quiet(q) && Claimed(items, q.idx, i)
    ensures (i in q.done) != (Failed(i) in q.workers)
  {
    if i !in q.done {
      var a :| 0 <= a < |q.workers| && HasItem(q.workers[a]) && q.workers[a].at == i;
      assert q.workers[a] in q.workers && q.workers[a] == Failed(i);
    }
  }

  /** A pool that has come to rest has claimed every item, or lost every worker to an undefined item or a
      rejection; each call it made has resolved or is the one its worker failed at. */
  lemma {:induction false} QuietPool<T>(items: seq<Option<T>>, n: nat, run: seq<Step>, q: Pool)
    requires Reaches(items, Launch(items, n), run, q) && Quiet(q)
    ensures q.idx <= |items| && |run| == |q.calls|
    ensures q.idx == |items| || Holes(items, q.idx) + Tally(q.workers, Rejected) == n
    ensures forall i: nat | Claimed(items, q.idx, i) :: (i in q.done) != (Failed(i) in q.workers)
  {
    Reached(items, n, run, q);
    TallyAll(q.workers);
    QuietCount(q.workers);
    forall i: nat | Claimed(items, q.idx, i) ensures (i in q.done) != (Failed(i) in q.workers) {
      QuietItem(items, q, i);
    }
  }

  /** When nothing rejects, a pool at rest has claimed every item exactly if fewer than n of the items before the
      last are undefined: whatever the interleaving, the n-th undefined item stops the last worker. */
  lemma {:induction false} AllItemsClaimed<T>(items: seq<Option<T>>, n: nat, run: seq<Step>, q: Pool)
    requires Reaches(items, Launch(items, n), run, q) && Quiet(q) && Tally(q.workers, Rejected) == 0
    ensures items != [] ==> (q.idx == |items| <==> Holes(items, |items| - 1) < n)
  {
    Reached(items, n, run, q);
    TallyAll(q.workers);
    QuietCount(q.workers);
    if q.idx < |items| {
      HolesGrow(items, q.idx, |items| - 1);
    }
  }

  lemma {:induction false} NoneFailed(ws: seq<Worker>, i: nat)
    requires Tally(ws, Rejected) == 0
    ensures Failed(i) !in ws
  {
    TallyNone(ws, Rejected);
    assert KindOf(Failed(i)) == Rejected;
  }

  lemma {:induction false} ItemClaimedExactly<T>(items: seq<Option<T>>, n: nat, q: Pool, i: nat)
    requires Counts(items, n, q) && Quiet(q) && Tally(q.workers, Rejected) == 0 && i < |items|
    ensures i < q.idx <==> Holes(items, i) < n
  {
    TallyAll(q.workers);
    QuietCount(q.workers);
    if i < q.idx {
      HolesGrow(items, i, q.idx - 1);
    } else {
      HolesGrow(items, q.idx, i);
    }
  }

  /** Item by item: when nothing rejects, a defined item has resolved in the pool at rest exactly if fewer than n
      undefined items come before it. */
  lemma {:induction false} ItemRunsExactly<T>(items: seq<Option<T>>, n: nat, run: seq<Step>, q: Pool, i: nat)
    requires Reaches(items, Launch(items, n), run, q) && Quiet(q) && Tally(q.workers, Rejected) == 0
    requires i < |items| && items[i].Some?
    ensures i in q.done <==> Holes(items, i) < n
  {
    Reached(items, n, run, q);
    ItemClaimedExactly(items, n, q, i);
    NoneFailed(q.workers, i);
    assert i in q.done ==> Claimed(items, q.idx, i);
    if Claimed(items, q.idx, i) {
      QuietItem(items, q, i);
    }
  }

  /** So all defined items have resolved, and nothing else, exactly if each has fewer than n undefined ones before
      it. */
  lemma {:induction false} AllItemsRun<T>(items: seq<Option<T>>, n: nat, run: seq<Step>, q: Pool)
    requires Reaches(items, Launch(items, n), run, q) && Quiet(q) && Tally(q.workers, Rejected) == 0
    ensures (forall i: nat :: i in q.done <==> i < |items| && items[i].Some?) <==>
              forall i: nat | i < |items| && items[i].Some? :: Holes(items, i) < n
  {
    Reached(items, n, run, q);
    forall i: nat | i < |items| && items[i].Some? ensures i in q.done <==> Holes(items, i) < n {
      ItemRunsExactly(items, n, run, q, i);
    }
  }

  /** One undefined item in front of a single worker: the pool is at rest at once, with the second item never run. */
  lemma HoleStopsTheOnlyWorker<T>(x: T)
    ensures var p := Launch([None, Some(x)], 1);
      Quiet(p) && p.idx == 1 && p.done == {} && Tally(p.workers, Rejected) == 0
  {
    var items := [None, Some(x)];
    assert Launch(items, 0).workers == [];
    assert Launch(items, 1).workers == [Broke(0)];
    assert Tally([Broke(0)][..0], Rejected) == 0;
  }
}
