/** What an update writes, that update and check agree with each other, and that over whole histories the ratchet only
    tightens. */
module RatchetTheorems {
  import opened Wrappers
  import opened RatchetModel
  import opened SizeRatchet

  /** Some measured key would be refused. */
  ghost predicate SomeGrows(cfg: Config, entries: map<Key, Entry>, m: map<Key, nat>) {
    exists k :: k in m && Grows(cfg, entries, k, m[k])
  }

  lemma {:induction false} BlockedMeans(cfg: Config, entries: map<Key, Entry>, sizes: Sizes)
    requires IsMap(sizes)
    ensures Blocked(cfg, entries, sizes) != [] <==> SomeGrows(cfg, entries, Measured(sizes))
  {
    BlockedIff(cfg, entries, sizes);
    var m := Measured(sizes);
    if Blocked(cfg, entries, sizes) != [] {
      var e := Blocked(cfg, entries, sizes)[0];
      assert e in Blocked(cfg, entries, sizes);
      var i :| 0 <= i < |sizes| && Grows(cfg, entries, sizes[i].0, sizes[i].1)
               && e == GrowthOf(entries, sizes[i].0, sizes[i].1);
      MeasuredAt(sizes, i);
      assert Grows(cfg, entries, sizes[i].0, m[sizes[i].0]);
    }
    if k :| k in m && Grows(cfg, entries, k, m[k]) {
      var i := MeasuredFrom(sizes, k);
      assert GrowthOf(entries, sizes[i].0, sizes[i].1) in Blocked(cfg, entries, sizes);
    }
  }

  // ----- the ratchet tightens

  /** Some oversized key of the later measurement is not in the earlier one at that size or more. */
  ghost predicate Worse(cfg: Config, earlier: map<Key, nat>, later: map<Key, nat>) {
    exists k :: k in later && later[k] > cfg.limit && (k !in earlier || earlier[k] < later[k])
  }

  /** The ratchet tightens: after an accepted update the earlier sizes no longer matter. A no-growth update on a later
      measurement is refused, and the check reports growth, exactly when that is worse than the update's own. */
  lemma {:induction false} RatchetTightens(cfg: Config, file: Option<Baseline>, sizes: Sizes, opts: Options,
          later: Sizes, opts': Options)
    requires IsMap(sizes) && IsMap(later) && !Refuses(cfg, file, sizes, opts) && !opts'.allowGrowth
    ensures var next := Updated(cfg, file, sizes, opts);
      && (Refuses(cfg, next, later, opts') <==> Worse(cfg, Measured(sizes), Measured(later)))
      && (ReportsGrowth(cfg, Entries(next), Measured(later)) <==> Worse(cfg, Measured(sizes), Measured(later)))
  {
    var next := Updated(cfg, file, sizes, opts);
    var m, m' := Measured(sizes), Measured(later);
    BlockedMeans(cfg, Entries(next), later);
    CheckVersusUpdate(cfg, next, later, opts');
    forall k | k in m'
      ensures Grows(cfg, Entries(next), k, m'[k]) <==> m'[k] > cfg.limit && (k !in m || m[k] < m'[k])
    {
    }
  }

  // ----- update and check agree

  /** Whatever an accepted update writes (bootstrap, shrink or approved growth), the check finds nothing on the
      sizes it was written from. */
  lemma {:induction false} AcceptedUpdateIsClean(cfg: Config, file: Option<Baseline>, sizes: Sizes, opts: Options)
    requires IsMap(sizes) && !Refuses(cfg, file, sizes, opts)
    ensures Clean(cfg, Entries(Updated(cfg, file, sizes, opts)), Measured(sizes))
  {
  }

  /** The check sees a key over its record although it fits the limit: the update does not look at such keys. */
  ghost predicate SmallGrowth(cfg: Config, entries: map<Key, Entry>, m: map<Key, nat>) {
    exists k :: k in m && k in entries && entries[k].loc < m[k] <= cfg.limit
  }

  ghost predicate ReportsGrowth(cfg: Config, entries: map<Key, Entry>, m: map<Key, nat>) {
    exists v: Violation :: (v.kind == NEW || v.kind == GREW) && Reports(cfg, entries, m, v)
  }

  /** With a file present, the check reports NEW or GREW exactly when a no-growth update would refuse or some
      key grew below the limit. */
  lemma {:induction false} CheckVersusUpdate(cfg: Config, file: Option<Baseline>, sizes: Sizes, opts: Options)
    requires IsMap(sizes) && file.Some? && !opts.allowGrowth
    ensures ReportsGrowth(cfg, Entries(file), Measured(sizes)) <==>
              Refuses(cfg, file, sizes, opts) || SmallGrowth(cfg, Entries(file), Measured(sizes))
  {
    var entries, m := Entries(file), Measured(sizes);
    BlockedMeans(cfg, entries, sizes);
    if v: Violation :| (v.kind == NEW || v.kind == GREW) && Reports(cfg, entries, m, v) {
      assert v.key in m;
    }
    if k :| k in m && Grows(cfg, entries, k, m[k]) {
      assert Reports(cfg, entries, m, Violation(if k in entries then GREW else NEW, k));
    }
    if k :| k in m && k in entries && entries[k].loc < m[k] <= cfg.limit {
      assert Reports(cfg, entries, m, Violation(GREW, k));
    }
  }

  /** So the two agree exactly when no key grew below the limit, or some oversized key is new or grew as well. */
  lemma {:induction false} CheckAndUpdateAgree(cfg: Config, file: Option<Baseline>, sizes: Sizes, opts: Options)
    requires IsMap(sizes) && file.Some? && !opts.allowGrowth
    ensures (Refuses(cfg, file, sizes, opts) <==> ReportsGrowth(cfg, Entries(file), Measured(sizes))) <==>
              (SmallGrowth(cfg, Entries(file), Measured(sizes)) ==> SomeGrows(cfg, Entries(file), Measured(sizes)))
    ensures (forall k | k in Entries(file) :: Entries(file)[k].loc > cfg.limit) ==>
              (Refuses(cfg, file, sizes, opts) <==> ReportsGrowth(cfg, Entries(file), Measured(sizes)))
  {
    CheckVersusUpdate(cfg, file, sizes, opts);
    BlockedMeans(cfg, Entries(file), sizes);
  }

  /** An accepted update drops an entry the check finds nothing wrong with exactly when the entry is permanent and its
      key fits both the limit and the record: the hand-written fields of such an entry are lost. */
  lemma {:induction false} DropsUnreported(cfg: Config, file: Option<Baseline>, sizes: Sizes, opts: Options, k: Key)
    requires IsMap(sizes) && !Refuses(cfg, file, sizes, opts) && k in Entries(file)
    ensures var entries, m := Entries(file), Measured(sizes);
      (k !in Entries(Updated(cfg, file, sizes, opts)) && forall kind :: !Reports(cfg, entries, m, Violation(kind, k)))
      <==> entries[k].permanent && k in m && m[k] <= cfg.limit && m[k] <= entries[k].loc
  {
    var entries, m := Entries(file), Measured(sizes);
    assert Reports(cfg, entries, m, Violation(STALE, k)) <==> k !in m;
    if k in m {
      assert Reports(cfg, entries, m, Violation(GREW, k)) <==> m[k] > entries[k].loc;
      assert Reports(cfg, entries, m, Violation(RETIRED, k)) <==>
               m[k] <= entries[k].loc && m[k] <= cfg.limit && !entries[k].permanent;
    }
  }

  /** They can differ: a record of 5 under a limit of 10 grows to 7, the check objects and the update does not. */
  lemma CheckCanBeStricter()
    ensures var cfg := Config(10, "legacy");
      var file := Some(Baseline(10, map["f" := Entry(5, "r", false)]));
      var sizes := [("f", 7)];
      ReportsGrowth(cfg, Entries(file), Measured(sizes)) && !Refuses(cfg, file, sizes, Options(false, None))
  {
    var cfg := Config(10, "legacy");
    var file := Some(Baseline(10, map["f" := Entry(5, "r", false)]));
    var sizes := [("f", 7)];
    assert Measured(sizes) == map["f" := 7] by { assert sizes[1..] == []; }
    assert Blocked(cfg, Entries(file), sizes) == [] by { assert sizes[1..] == []; }
    assert Reports(cfg, Entries(file), Measured(sizes), Violation(GREW, "f"));
  }

  // ----- histories

  /** Keys only disappear, sizes only fall, and the hand-written fields of kept keys survive. */
  ghost predicate Shrinks(a: map<Key, Entry>, b: map<Key, Entry>) {
    forall k | k in b ::
      k in a && b[k].loc <= a[k].loc && b[k].reason == a[k].reason && b[k].permanent == a[k].permanent
  }

  lemma UpdateShrinks(cfg: Config, file: Option<Baseline>, sizes: Sizes, opts: Options)
    requires IsMap(sizes) && file.Some? && !opts.allowGrowth
    ensures Updated(cfg, file, sizes, opts).Some?
    ensures Shrinks(Entries(file), Entries(Updated(cfg, file, sizes, opts)))
  {
    BlockedMeans(cfg, Entries(file), sizes);
    var m := Measured(sizes);
    if !Refuses(cfg, file, sizes, opts) {
      assert forall k | k in m :: !Grows(cfg, Entries(file), k, m[k]);
    }
  }

  /** The baseline file over time, rewritten by no-growth updates only. */
  ghost predicate IsHistory(cfg: Config, files: seq<Option<Baseline>>, scans: seq<Sizes>,
          reasons: seq<Option<string>>) {
    && |files| == |scans| + 1 == |reasons| + 1 && files[0].Some?
    && (forall i | 0 <= i < |scans| :: IsMap(scans[i]))
    && forall i | 0 <= i < |scans| :: files[i + 1] == Updated(cfg, files[i], scans[i], Options(false, reasons[i]))
  }

  lemma {:induction false} HistoryShrinks(cfg: Config, files: seq<Option<Baseline>>, scans: seq<Sizes>,
          reasons: seq<Option<string>>, i: nat, j: nat)
    requires IsHistory(cfg, files, scans, reasons) && i <= j <= |scans|
    ensures files[j].Some? && Shrinks(Entries(files[i]), Entries(files[j]))
    decreases j
  {
    if 0 < j {
      HistoryShrinks(cfg, files, scans, reasons, if i < j then i else j - 1, j - 1);
      UpdateShrinks(cfg, files[j - 1], scans[j - 1], Options(false, reasons[j - 1]));
    }
  }

  /** Any tree that passes the growth checks at any later point has every oversized key in the first baseline, at
      that size or more: nothing oversized was ever added, and nothing grew. */
  lemma LaterTreesAreBounded(cfg: Config, files: seq<Option<Baseline>>, scans: seq<Sizes>,
          reasons: seq<Option<string>>, n: nat, m: map<Key, nat>)
    requires IsHistory(cfg, files, scans, reasons) && n <= |scans|
    requires !ReportsGrowth(cfg, Entries(files[n]), m)
    ensures forall k | k in m && m[k] > cfg.limit :: k in Entries(files[0]) && m[k] <= Entries(files[0])[k].loc
  {
    HistoryShrinks(cfg, files, scans, reasons, 0, n);
    forall k | k in m && m[k] > cfg.limit
      ensures k in Entries(files[0]) && m[k] <= Entries(files[0])[k].loc
    {
      assert !Reports(cfg, Entries(files[n]), m, Violation(NEW, k));
      assert !Reports(cfg, Entries(files[n]), m, Violation(GREW, k));
    }
  }

  /** Approved growth is the only way up: an update that is not refused and adds or raises a key was allowed to. */
  lemma GrowthNeedsApproval(cfg: Config, file: Option<Baseline>, sizes: Sizes, opts: Options)
    requires IsMap(sizes) && file.Some? && !Shrinks(Entries(file), Entries(Updated(cfg, file, sizes, opts)))
    ensures opts.allowGrowth
  {
    if !opts.allowGrowth {
      UpdateShrinks(cfg, file, sizes, opts);
    }
  }
}
