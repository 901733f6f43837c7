/** The two gate commands as they run: `updateBaseline` rewrites the baseline file, `collectViolations` reads it. */
module SizeRatchet {
  import opened Wrappers
  import opened RatchetModel

  datatype UpdateError = GrowthNeedsReason

  class Gate {
    /** The baseline file; None when it is absent. */
    var file: Option<Baseline>

    method UpdateBaseline(cfg: Config, sizes: Sizes, opts: Options) returns (r: Result<Outcome, UpdateError>)
      requires IsMap(sizes)
      modifies this
      ensures r.Failure? <==> BadOptions(opts)
      ensures r.Failure? ==> file == old(file)
      ensures r.Success? ==> file == Updated(cfg, old(file), sizes, opts)
      ensures r.Success? && !Refuses(cfg, old(file), sizes, opts) ==>
                Written(cfg, old(file), sizes, opts.reason, file)
      ensures r.Success? ==>
        if Refuses(cfg, old(file), sizes, opts) then
          r.value == Outcome(0, {}, BlockedBy(cfg, old(file), sizes))
        else
          && file.Some?
          && r.value == Outcome(|file.value.entries|, Entries(old(file)).Keys - file.value.entries.Keys, [])
    {
      if BadOptions(opts) {
        return Failure(GrowthNeedsReason);
      }
      var previous := Entries(file);
      var bootstrap := file.None?;
      var blocked: seq<Growth> := [];
      if !bootstrap {
        blocked := CollectGrowth(cfg, previous, sizes);
      }
      if blocked != [] && !opts.allowGrowth {
        return Success(Outcome(0, {}, blocked));
      }
      UpdateWrites(cfg, file, sizes, opts);
      var entries := BuildEntries(cfg, previous, bootstrap, blocked, sizes, opts.reason);
      file := Some(Baseline(cfg.limit, entries));
      return Success(Outcome(|entries|, set k | k in previous && k !in entries, []));
    }

    method CollectGrowth(cfg: Config, previous: map<Key, Entry>, sizes: Sizes) returns (blocked: seq<Growth>)
      ensures blocked == Blocked(cfg, previous, sizes)
    {
      blocked := [];
      for i := 0 to |sizes|
        invariant blocked == Blocked(cfg, previous, sizes[..i])
      {
        var (key, loc) := sizes[i];
        BlockedNext(cfg, previous, sizes, i);
        if loc > cfg.limit {
          if key !in previous {
            blocked := blocked + [Growth(key, None, loc)];
          } else if loc > previous[key].loc {
            blocked := blocked + [Growth(key, Some(previous[key].loc), loc)];
          }
        }
      }
      assert sizes[..|sizes|] == sizes;
    }

    /** A key is new when its growth event has no old size. */
    method BuildEntries(cfg: Config, previous: map<Key, Entry>, bootstrap: bool, blocked: seq<Growth>, sizes: Sizes,
            reason: Option<string>)
      returns (entries: map<Key, Entry>)
      requires IsMap(sizes)
      requires blocked == if bootstrap then [] else Blocked(cfg, previous, sizes)
      requires bootstrap ==> previous == map[]
      ensures entries == NextEntries(cfg, previous, bootstrap, reason, Measured(sizes))
    {
      entries := map[];
      var i := 0;
      while i < |sizes|
        invariant i <= |sizes|
        invariant entries == NextEntries(cfg, previous, bootstrap, reason, Measured(sizes[..i]))
      {
        var (key, loc) := sizes[i];
        MeasuredNext(sizes, i);
        NextEntriesStep(cfg, previous, bootstrap, reason, Measured(sizes[..i]), key, loc);
        if loc > cfg.limit {
          var entry := BuildEntry(cfg, previous, bootstrap, blocked, sizes, reason, i);
          entries := entries[key := entry];
        }
        i := i + 1;
      }
      assert sizes[..i] == sizes;
    }

    method BuildEntry(cfg: Config, previous: map<Key, Entry>, bootstrap: bool, blocked: seq<Growth>, sizes: Sizes,
            reason: Option<string>, i: nat)
      returns (entry: Entry)
      requires IsMap(sizes) && i < |sizes| && sizes[i].1 > cfg.limit
      requires blocked == if bootstrap then [] else Blocked(cfg, previous, sizes)
      requires bootstrap ==> previous == map[]
      ensures entry == Recorded(cfg, previous, bootstrap, reason, sizes[i].0, sizes[i].1)
    {
      var (key, loc) := sizes[i];
      BlockedHas(cfg, previous, sizes, i);
      var why := if IsNew(blocked, key) then (if reason.Some? then reason.value else cfg.legacyReason)
                 else if key in previous then previous[key].reason else cfg.legacyReason;
      entry := Entry(loc, why, key in previous && previous[key].permanent);
    }

    /** The check without the modified-files mode. */
    method CollectViolations(cfg: Config, sizes: Sizes) returns (violations: seq<Violation>)
      requires IsMap(sizes)
      ensures forall v :: v in violations <==> Reports(cfg, Entries(file), Measured(sizes), v)
    {
      var entries := Entries(file);
      var found := CheckSizes(cfg, entries, sizes);
      var stale := CheckEntries(entries, Measured(sizes).Keys);
      violations := found + stale;
    }

    method CheckSizes(cfg: Config, entries: map<Key, Entry>, sizes: Sizes) returns (violations: seq<Violation>)
      requires IsMap(sizes)
      ensures Covers(violations, cfg, entries, Measured(sizes))
    {
      violations := [];
      for i := 0 to |sizes|
        invariant Covers(violations, cfg, entries, Measured(sizes[..i]))
      {
        var (key, loc) := sizes[i];
        MeasuredNext(sizes, i);
        CoversNext(violations, cfg, entries, Measured(sizes[..i]), key, loc);
        if key !in entries {
          if loc > cfg.limit {
            violations := violations + [Violation(NEW, key)];
          }
        } else if loc > entries[key].loc {
          violations := violations + [Violation(GREW, key)];
        } else if loc <= cfg.limit && !entries[key].permanent {
          violations := violations + [Violation(RETIRED, key)];
        }
      }
      assert sizes[..|sizes|] == sizes;
    }

    method CheckEntries(entries: map<Key, Entry>, measured: set<Key>) returns (violations: seq<Violation>)
      ensures forall v :: v in violations <==> v.kind == STALE && v.key in entries && v.key !in measured
    {
      violations := [];
      var left := entries.Keys;
      while left != {}
        invariant left <= entries.Keys
        invariant forall v :: v in violations <==>
                    v.kind == STALE && v.key in entries && v.key !in left && v.key !in measured
        decreases left
      {
        var key :| key in left;
        if key !in measured {
          violations := violations + [Violation(STALE, key)];
        }
        left := left - {key};
      }
    }
  }

  lemma {:induction false} BlockedNext(cfg: Config, entries: map<Key, Entry>, sizes: Sizes, i: nat)
    requires i < |sizes|
    ensures Blocked(cfg, entries, sizes[..i + 1]) == Blocked(cfg, entries, sizes[..i]) +
              if Grows(cfg, entries, sizes[i].0, sizes[i].1) then [GrowthOf(entries, sizes[i].0, sizes[i].1)] else []
    decreases |sizes|
  {
    if i == 0 {
      assert sizes[..1][1..] == [] && sizes[..0] == [];
    } else {
      var rest := sizes[1..];
      BlockedNext(cfg, entries, rest, i - 1);
      assert sizes[..i + 1][1..] == rest[..i] && sizes[..i][1..] == rest[..i - 1];
      var first :=
        if Grows(cfg, entries, sizes[0].0, sizes[0].1) then [GrowthOf(entries, sizes[0].0, sizes[0].1)] else [];
      assert Blocked(cfg, entries, sizes[..i + 1]) == first + Blocked(cfg, entries, rest[..i]);
      assert Blocked(cfg, entries, sizes[..i]) == first + Blocked(cfg, entries, rest[..i - 1]);
    }
  }

  /** The violations are those of the measured keys. */
  ghost predicate Covers(violations: seq<Violation>, cfg: Config, entries: map<Key, Entry>, m: map<Key, nat>) {
    forall v :: v in violations <==> v.kind != STALE && Reports(cfg, entries, m, v)
  }

  /** The violation of one measured key, if any. */
  function Found(cfg: Config, entries: map<Key, Entry>, key: Key, loc: nat): seq<Violation> {
    if key !in entries then (if loc > cfg.limit then [Violation(NEW, key)] else [])
    else if loc > entries[key].loc then [Violation(GREW, key)]
    else if loc <= cfg.limit && !entries[key].permanent then [Violation(RETIRED, key)]
    else []
  }

  lemma CoversNext(violations: seq<Violation>, cfg: Config, entries: map<Key, Entry>, m: map<Key, nat>, key: Key,
          loc: nat)
    requires Covers(violations, cfg, entries, m) && key !in m
    ensures Covers(violations + Found(cfg, entries, key, loc), cfg, entries, m[key := loc])
  {
    forall v
      ensures v in violations + Found(cfg, entries, key, loc) <==>
              v.kind != STALE && Reports(cfg, entries, m[key := loc], v)
    {
      assert v.key == key ==> v !in violations;
      assert v.key != key ==> (Reports(cfg, entries, m[key := loc], v) <==> Reports(cfg, entries, m, v));
    }
  }

  lemma NextEntriesStep(cfg: Config, previous: map<Key, Entry>, bootstrap: bool, reason: Option<string>,
          m: map<Key, nat>, key: Key, loc: nat)
    requires key !in m
    ensures var next := NextEntries(cfg, previous, bootstrap, reason, m);
      NextEntries(cfg, previous, bootstrap, reason, m[key := loc]) ==
        if loc > cfg.limit then next[key := Recorded(cfg, previous, bootstrap, reason, key, loc)] else next
  {
  }

  /** The growth event recorded for key, if any, has no old size. */
  predicate IsNew(blocked: seq<Growth>, key: Key) {
    exists e :: e in blocked && e.key == key && e.oldLoc == None
  }

  lemma {:induction false} BlockedHas(cfg: Config, entries: map<Key, Entry>, sizes: Sizes, i: nat)
    requires IsMap(sizes) && i < |sizes|
    ensures IsNew(Blocked(cfg, entries, sizes), sizes[i].0)
            <==> sizes[i].1 > cfg.limit && sizes[i].0 !in entries
  {
    BlockedIff(cfg, entries, sizes);
    var g := GrowthOf(entries, sizes[i].0, sizes[i].1);
    if sizes[i].1 > cfg.limit && sizes[i].0 !in entries {
      assert g in Blocked(cfg, entries, sizes);
    }
  }

  /** The blocked list is exactly the growth events of the oversized keys that are new or grew. */
  lemma {:induction false} BlockedIff(cfg: Config, entries: map<Key, Entry>, sizes: Sizes)
    ensures forall e :: e in Blocked(cfg, entries, sizes) <==>
              exists i :: 0 <= i < |sizes| && Grows(cfg, entries, sizes[i].0, sizes[i].1)
                          && e == GrowthOf(entries, sizes[i].0, sizes[i].1)
    decreases |sizes|
  {
    if sizes != [] {
      BlockedIff(cfg, entries, sizes[1..]);
      forall e
        ensures e in Blocked(cfg, entries, sizes) <==>
                exists i :: 0 <= i < |sizes| && Grows(cfg, entries, sizes[i].0, sizes[i].1)
                            && e == GrowthOf(entries, sizes[i].0, sizes[i].1)
      {
        if i :| 0 <= i < |sizes| && Grows(cfg, entries, sizes[i].0, sizes[i].1)
                && e == GrowthOf(entries, sizes[i].0, sizes[i].1) {
          assert i > 0 ==> sizes[1..][i - 1] == sizes[i];
        }
        if e in Blocked(cfg, entries, sizes[1..]) {
          var i :| 0 <= i < |sizes[1..]| && Grows(cfg, entries, sizes[1..][i].0, sizes[1..][i].1)
                   && e == GrowthOf(entries, sizes[1..][i].0, sizes[1..][i].1);
          assert sizes[i + 1] == sizes[1..][i];
        }
      }
    }
  }
}
