/** The size ratchet: what an update writes and refuses, and what the check reports. */
module RatchetModel {
  import opened Wrappers

  type Key = string

  datatype Entry = Entry(loc: int, reason: string, permanent: bool)
  datatype Baseline = Baseline(limit: int, entries: map<Key, Entry>)
  datatype Config = Config(limit: nat, legacyReason: string)
  datatype Options = Options(allowGrowth: bool, reason: Option<string>)

  /** A growth event; oldLoc is None for a key without a record. */
  datatype Growth = Growth(key: Key, oldLoc: Option<int>, newLoc: int)

  datatype Outcome = Outcome(kept: nat, dropped: set<Key>, blocked: seq<Growth>)

  datatype Kind = NEW | GREW | RETIRED | STALE
  datatype Violation = Violation(kind: Kind, key: Key)

  /** A measurement, in the order the scan produced it. */
  type Sizes = seq<(Key, nat)>

  /** A Map has each key once. */
  ghost predicate IsMap(sizes: Sizes) {
    forall i, j | 0 <= i < j < |sizes| :: sizes[i].0 != sizes[j].0
  }

  function Measured(sizes: Sizes): (m: map<Key, nat>)
    ensures forall k :: k in m <==> exists i :: 0 <= i < |sizes| && sizes[i].0 == k
  {
    if sizes == [] then map[] else Measured(sizes[1..])[sizes[0].0 := sizes[0].1]
  }

  /** One more measurement with a new key. */
  lemma {:induction false} MeasuredNext(sizes: Sizes, i: nat)
    requires IsMap(sizes) && i < |sizes|
    ensures sizes[i].0 !in Measured(sizes[..i])
    ensures Measured(sizes[..i + 1]) == Measured(sizes[..i])[sizes[i].0 := sizes[i].1]
    decreases |sizes|
  {
    if i > 0 {
      MeasuredNext(sizes[1..], i - 1);
      assert sizes[..i][1..] == sizes[1..][..i - 1] && sizes[..i + 1][1..] == sizes[1..][..i];
      assert sizes[..i][0] == sizes[0] && sizes[..i + 1][0] == sizes[0];
      assert sizes[0].0 != sizes[i].0;
    }
  }

  /** m[key] is one of the measurements. */
  lemma {:induction false} MeasuredFrom(sizes: Sizes, key: Key) returns (i: nat)
    requires IsMap(sizes) && key in Measured(sizes)
    ensures i < |sizes| && sizes[i] == (key, Measured(sizes)[key])
    decreases |sizes|
  {
    if sizes[0].0 == key {
      i := 0;
    } else {
      i := MeasuredFrom(sizes[1..], key);
      i := i + 1;
    }
  }

  lemma {:induction false} MeasuredAt(sizes: Sizes, i: nat)
    requires IsMap(sizes) && i < |sizes|
    ensures sizes[i].0 in Measured(sizes) && Measured(sizes)[sizes[i].0] == sizes[i].1
    decreases |sizes|
  {
    if i > 0 {
      MeasuredAt(sizes[1..], i - 1);
      assert sizes[0].0 != sizes[i].0;
    }
  }

  // ----- update

  /** The growth guard for one measured key. */
  predicate Grows(cfg: Config, entries: map<Key, Entry>, key: Key, loc: nat) {
    loc > cfg.limit && (key !in entries || loc > entries[key].loc)
  }

  function GrowthOf(entries: map<Key, Entry>, key: Key, loc: nat): Growth {
    Growth(key, if key in entries then Some(entries[key].loc) else None, loc)
  }

  function Blocked(cfg: Config, entries: map<Key, Entry>, sizes: Sizes): seq<Growth> {
    if sizes == [] then []
    else
      (if Grows(cfg, entries, sizes[0].0, sizes[0].1) then [GrowthOf(entries, sizes[0].0, sizes[0].1)] else [])
      + Blocked(cfg, entries, sizes[1..])
  }

  /** What is recorded for an oversized key: hand-written fields survive by key. */
  function Recorded(cfg: Config, previous: map<Key, Entry>, bootstrap: bool, reason: Option<string>, key: Key,
          loc: nat): Entry {
    if key in previous then Entry(loc, previous[key].reason, previous[key].permanent)
    else Entry(loc, if !bootstrap && reason.Some? then reason.value else cfg.legacyReason, false)
  }

  function NextEntries(cfg: Config, previous: map<Key, Entry>, bootstrap: bool, reason: Option<string>,
          m: map<Key, nat>): map<Key, Entry> {
    map key | key in m && m[key] > cfg.limit :: Recorded(cfg, previous, bootstrap, reason, key, m[key])
  }

  /** allowGrowth without a non-empty reason is refused before anything is read. */
  predicate BadOptions(opts: Options) {
    opts.allowGrowth && (opts.reason == None || opts.reason == Some(""))
  }

  function Entries(file: Option<Baseline>): map<Key, Entry> {
    if file.Some? then file.value.entries else map[]
  }

  function BlockedBy(cfg: Config, file: Option<Baseline>, sizes: Sizes): seq<Growth> {
    if file.None? then [] else Blocked(cfg, Entries(file), sizes)
  }

  predicate Refuses(cfg: Config, file: Option<Baseline>, sizes: Sizes, opts: Options) {
    BlockedBy(cfg, file, sizes) != [] && !opts.allowGrowth
  }

  /** The baseline file after an update. */
  function Updated(cfg: Config, file: Option<Baseline>, sizes: Sizes, opts: Options): Option<Baseline> {
    if Refuses(cfg, file, sizes, opts) then file
    else Some(Baseline(cfg.limit, NextEntries(cfg, Entries(file), file.None?, opts.reason, Measured(sizes))))
  }

  /** after records exactly the oversized measurements, at their sizes; entries of known keys keep their hand-written
      fields, and a new entry carries the given reason, or the legacy one in a bootstrap or when none was given. */
  ghost predicate Written(cfg: Config, file: Option<Baseline>, sizes: Sizes, reason: Option<string>,
          after: Option<Baseline>)
  {
    && after.Some? && after.value.limit == cfg.limit
    && var next := after.value.entries;
    && (forall k :: k in next <==> exists i :: 0 <= i < |sizes| && sizes[i].0 == k && sizes[i].1 > cfg.limit)
    && (forall i | 0 <= i < |sizes| && sizes[i].0 in next :: next[sizes[i].0].loc == sizes[i].1)
    && (forall k | k in next && k in Entries(file) ::
          next[k].reason == Entries(file)[k].reason && next[k].permanent == Entries(file)[k].permanent)
    && (forall k | k in next && k !in Entries(file) ::
          && !next[k].permanent
          && next[k].reason == (if file.Some? && reason.Some? then reason.value else cfg.legacyReason))
  }

  /** An update that is not refused records exactly the oversized keys of the measurement, each with its measured size;
      a known key keeps its hand-written fields, a new one is stamped. */
  lemma UpdateWrites(cfg: Config, file: Option<Baseline>, sizes: Sizes, opts: Options)
    requires IsMap(sizes) && !Refuses(cfg, file, sizes, opts)
    ensures Written(cfg, file, sizes, opts.reason, Updated(cfg, file, sizes, opts))
  {
    var after := Entries(Updated(cfg, file, sizes, opts));
    forall k
      ensures k in after <==> exists i :: 0 <= i < |sizes| && sizes[i].0 == k && sizes[i].1 > cfg.limit
    {
      if k in after {
        var i := MeasuredFrom(sizes, k);
      }
      if i :| 0 <= i < |sizes| && sizes[i].0 == k && sizes[i].1 > cfg.limit {
        MeasuredAt(sizes, i);
      }
    }
    forall i | 0 <= i < |sizes| && sizes[i].0 in after ensures after[sizes[i].0].loc == sizes[i].1 {
      MeasuredAt(sizes, i);
    }
  }

  // ----- check

  /** When the check reports each kind for a key. */
  predicate Reports(cfg: Config, entries: map<Key, Entry>, m: map<Key, nat>, v: Violation) {
    match v.kind
    case NEW => v.key in m && v.key !in entries && m[v.key] > cfg.limit
    case GREW => v.key in m && v.key in entries && m[v.key] > entries[v.key].loc
    case RETIRED =>
      && v.key in m && v.key in entries && m[v.key] <= entries[v.key].loc
      && m[v.key] <= cfg.limit && !entries[v.key].permanent
    case STALE => v.key in entries && v.key !in m
  }

  ghost predicate Clean(cfg: Config, entries: map<Key, Entry>, m: map<Key, nat>) {
    forall v :: !Reports(cfg, entries, m, v)
  }
}
