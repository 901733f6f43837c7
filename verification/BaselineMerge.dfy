/** Merging two versions of a generated baseline: the least baseline that approves whatever either side approved. */
module BaselineMerge {
  import opened Text
  import opened Wrappers
  import opened RatchetModel
  import opened RatchetTheorems

  function Max(a: int, b: int): int {
    if a > b then a else b
  }

  // ----- size baselines

  /** One entry folded into what is already there. An absent size counts as zero. */
  function MergeEntry(previous: Option<Entry>, e: Entry): Entry {
    match previous
    case None => Entry(Max(0, e.loc), e.reason, e.permanent)
    case Some(p) =>
      Entry(Max(p.loc, e.loc), if Blank(p.reason) then e.reason else p.reason, p.permanent || e.permanent)
  }

  function Fold(into: map<Key, Entry>, side: map<Key, Entry>): map<Key, Entry> {
    map k | k in into.Keys + side.Keys ::
      if k in side then MergeEntry(if k in into then Some(into[k]) else None, side[k]) else into[k]
  }

  function Union(ours: Option<Baseline>, theirs: Option<Baseline>): Baseline {
    Baseline(
      if ours.Some? then ours.value.limit else if theirs.Some? then theirs.value.limit else 350,
      Fold(Fold(map[], Entries(ours)), Entries(theirs)))
  }

  method UnionBaselines(ours: Option<Baseline>, theirs: Option<Baseline>) returns (u: Baseline)
    ensures u == Union(ours, theirs)
  {
    var entries := FoldSide(map[], Entries(ours));
    entries := FoldSide(entries, Entries(theirs));
    var limit := if ours.Some? then ours.value.limit else if theirs.Some? then theirs.value.limit else 350;
    return Baseline(limit, entries);
  }

  method FoldSide(into: map<Key, Entry>, side: map<Key, Entry>) returns (entries: map<Key, Entry>)
    ensures entries == Fold(into, side)
  {
    entries := into;
    var left := side.Keys;
    assert into == Fold(into, map[]);
    assert map[] == map k | k in side && k !in left :: side[k];
    while left != {}
      invariant left <= side.Keys
      invariant entries == Fold(into, map k | k in side && k !in left :: side[k])
      decreases left
    {
      var key :| key in left;
      entries := entries[key := MergeEntry(if key in entries then Some(entries[key]) else None, side[key])];
      left := left - {key};
    }
    assert side == map k | k in side && k !in left :: side[k];
  }

  /** The merged record of a key, said at once. */
  lemma UnionAt(ours: Option<Baseline>, theirs: Option<Baseline>, k: Key)
    ensures var u := Union(ours, theirs).entries; var a := Entries(ours); var b := Entries(theirs);
      && (k in u <==> k in a || k in b)
      && (k in u ==>
            && u[k].loc == Max(0, Max(if k in a then a[k].loc else 0, if k in b then b[k].loc else 0))
            && u[k].permanent == ((k in a && a[k].permanent) || (k in b && b[k].permanent))
            && u[k].reason == if k in a && (!Blank(a[k].reason) || k !in b) then a[k].reason else b[k].reason)
  {
  }

  lemma UnionCommutes(a: Option<Baseline>, b: Option<Baseline>, k: Key)
    ensures var u, v := Union(a, b).entries, Union(b, a).entries;
      (k in u <==> k in v) && (k in u ==> u[k].loc == v[k].loc && u[k].permanent == v[k].permanent)
  {
    UnionAt(a, b, k);
    UnionAt(b, a, k);
  }

  /** Merging a version with itself changes nothing exactly when no recorded size is negative. */
  lemma UnionIdempotent(a: Baseline)
    ensures Union(Some(a), Some(a)) == a <==> forall k | k in a.entries :: a.entries[k].loc >= 0
  {
    var u := Union(Some(a), Some(a));
    forall k ensures k in u.entries <==> k in a.entries
      ensures k in a.entries ==> (u.entries[k] == a.entries[k] <==> a.entries[k].loc >= 0)
    {
      UnionAt(Some(a), Some(a), k);
    }
    if forall k | k in a.entries :: a.entries[k].loc >= 0 {
      assert u.entries == a.entries;
    }
  }

  lemma UnionAssociatesAt(a: Option<Baseline>, b: Option<Baseline>, c: Option<Baseline>, k: Key)
    ensures var l, r := Union(Some(Union(a, b)), c).entries, Union(a, Some(Union(b, c))).entries;
      (k in l <==> k in r) && (k in l ==> l[k] == r[k])
  {
    UnionAt(a, b, k);
    UnionAt(b, c, k);
    UnionAt(Some(Union(a, b)), c, k);
    UnionAt(a, Some(Union(b, c)), k);
  }

  /** Three versions merge to the same entries in either order. */
  lemma UnionAssociates(a: Option<Baseline>, b: Option<Baseline>, c: Option<Baseline>)
    ensures Union(Some(Union(a, b)), c).entries == Union(a, Some(Union(b, c))).entries
  {
    var l, r := Union(Some(Union(a, b)), c).entries, Union(a, Some(Union(b, c))).entries;
    forall k ensures (k in l <==> k in r) && (k in l ==> l[k] == r[k]) {
      UnionAssociatesAt(a, b, c, k);
    }
  }

  /** The limit associates too, except that two absent stages already fix it at 350. */
  lemma LimitAssociates(a: Option<Baseline>, b: Option<Baseline>, c: Option<Baseline>)
    ensures Union(Some(Union(a, b)), c).limit == Union(a, Some(Union(b, c))).limit
            <==> !(a.None? && b.None? && c.Some? && c.value.limit != 350)
  {
  }

  /** An update against the union refuses a key exactly when it would be refused against both sides. */
  lemma UnionRefuses(cfg: Config, ours: Option<Baseline>, theirs: Option<Baseline>, k: Key, loc: nat)
    ensures Grows(cfg, Union(ours, theirs).entries, k, loc) <==>
              Grows(cfg, Entries(ours), k, loc) && Grows(cfg, Entries(theirs), k, loc)
  {
    UnionAt(ours, theirs, k);
  }

  /** Merge, then update without growth: it is refused exactly when an oversized key is past both versions, and
      otherwise records the measured sizes, with the reason of the first version that gives one and the permanence of
      either. */
  lemma {:induction false} MergeThenUpdate(cfg: Config, ours: Option<Baseline>, theirs: Option<Baseline>, sizes: Sizes,
          opts: Options, k: Key)
    requires IsMap(sizes) && !opts.allowGrowth
    ensures var merged, m := Some(Union(ours, theirs)), Measured(sizes); var a, b := Entries(ours), Entries(theirs);
      && (Refuses(cfg, merged, sizes, opts) <==>
            exists x :: x in m && Grows(cfg, a, x, m[x]) && Grows(cfg, b, x, m[x]))
      && (!Refuses(cfg, merged, sizes, opts) ==>
            var next := Entries(Updated(cfg, merged, sizes, opts));
            && (k in next <==> k in m && m[k] > cfg.limit)
            && (k in next ==>
                  && (k in a || k in b) && next[k].loc == m[k]
                  && next[k].reason == (if k in a && (!Blank(a[k].reason) || k !in b) then a[k].reason else b[k].reason)
                  && next[k].permanent == ((k in a && a[k].permanent) || (k in b && b[k].permanent))))
  {
    var merged, m := Some(Union(ours, theirs)), Measured(sizes);
    BlockedMeans(cfg, Entries(merged), sizes);
    forall x | x in m
      ensures Grows(cfg, Entries(merged), x, m[x]) <==>
                Grows(cfg, Entries(ours), x, m[x]) && Grows(cfg, Entries(theirs), x, m[x])
    {
      UnionRefuses(cfg, ours, theirs, x, m[x]);
    }
    UnionAt(ours, theirs, k);
    assert k in m && !SomeGrows(cfg, Entries(merged), m) ==> !Grows(cfg, Entries(merged), k, m[k]);
  }

  /** b approves whatever a approves. */
  ghost predicate Approves(cfg: Config, b: map<Key, Entry>, a: map<Key, Entry>) {
    forall k, loc: nat | Grows(cfg, b, k, loc) :: Grows(cfg, a, k, loc)
  }

  /** ... and the union is the least such baseline: whatever approves both sides approves all it approves. */
  lemma UnionIsLeast(cfg: Config, ours: Option<Baseline>, theirs: Option<Baseline>, b: map<Key, Entry>)
    ensures Approves(cfg, b, Union(ours, theirs).entries) <==>
              Approves(cfg, b, Entries(ours)) && Approves(cfg, b, Entries(theirs))
  {
    var u := Union(ours, theirs).entries;
    forall k, loc: nat
      ensures Grows(cfg, u, k, loc) <==> Grows(cfg, Entries(ours), k, loc) && Grows(cfg, Entries(theirs), k, loc)
    {
      UnionRefuses(cfg, ours, theirs, k, loc);
    }
    assert Approves(cfg, b, u) ==> Approves(cfg, b, Entries(ours)) && Approves(cfg, b, Entries(theirs)) by {
      if Approves(cfg, b, u) {
        forall k, loc: nat | Grows(cfg, b, k, loc)
          ensures Grows(cfg, Entries(ours), k, loc) && Grows(cfg, Entries(theirs), k, loc)
        {
          assert Grows(cfg, u, k, loc);
        }
      }
    }
  }

  // ----- POSIX guard counts

  datatype Rule = R1 | R2 | R3 | R4
  type Counts = map<Rule, nat>
  type PosixEntries = map<Key, Counts>
  datatype Finding = Finding(rule: Rule, site: nat)
  datatype Delta = Delta(file: Key, rule: Rule, baseline: nat, actual: nat)

  function CountOf(c: Counts, r: Rule): nat {
    if r in c then c[r] else 0
  }

  function At(entries: PosixEntries, file: Key): Counts {
    if file in entries then entries[file] else map[]
  }

  function MergeCounts(a: Counts, b: Counts): Counts {
    map r | r in a.Keys + b.Keys :: if CountOf(a, r) > CountOf(b, r) then CountOf(a, r) else CountOf(b, r)
  }

  function PosixUnion(ours: Option<PosixEntries>, theirs: Option<PosixEntries>): PosixEntries {
    var a := if ours.Some? then ours.value else map[];
    var b := if theirs.Some? then theirs.value else map[];
    map f | f in a.Keys + b.Keys :: MergeCounts(At(a, f), At(b, f))
  }

  const RULES := [R1, R2, R3, R4]

  lemma EveryRule()
    ensures forall r: Rule :: r in RULES[..4]
  {
    forall r: Rule ensures r in RULES[..4] {
      match r
      case R1 => assert RULES[..4][0] == R1;
      case R2 => assert RULES[..4][1] == R2;
      case R3 => assert RULES[..4][2] == R3;
      case R4 => assert RULES[..4][3] == R4;
    }
  }

  method UnionPosix(ours: Option<PosixEntries>, theirs: Option<PosixEntries>) returns (u: PosixEntries)
    ensures u == PosixUnion(ours, theirs)
  {
    var a := if ours.Some? then ours.value else map[];
    var b := if theirs.Some? then theirs.value else map[];
    u := FoldPosix(map[], a);
    MergeFromNothing(a);
    u := FoldPosix(u, b);
  }

  lemma MergeFromNothing(side: PosixEntries)
    ensures MergePosix(map[], side) == side
  {
    forall f | f in side ensures MergeCounts(map[], side[f]) == side[f] {
      MergeNothing(side[f]);
    }
  }

  function MergePosix(into: PosixEntries, side: PosixEntries): PosixEntries {
    map f | f in into.Keys + side.Keys :: MergeCounts(At(into, f), At(side, f))
  }

  lemma MergeNothing(c: Counts)
    ensures MergeCounts(map[], c) == c && MergeCounts(c, map[]) == c
  {
  }

  /** The part of side whose files are done. */
  function Done(side: PosixEntries, left: set<Key>): PosixEntries {
    map f | f in side && f !in left :: side[f]
  }

  lemma MergeOne(into: PosixEntries, part: PosixEntries, file: Key, c: Counts)
    requires file !in part
    ensures MergePosix(into, part[file := c]) == MergePosix(into, part)[file := MergeCounts(At(into, file), c)]
  {
    var l, r := MergePosix(into, part[file := c]), MergePosix(into, part)[file := MergeCounts(At(into, file), c)];
    assert l.Keys == r.Keys;
    forall f | f in l ensures l[f] == r[f] {
      assert f != file ==> At(part[file := c], f) == At(part, f);
    }
  }

  lemma MergeNext(into: PosixEntries, side: PosixEntries, left: set<Key>, file: Key)
    requires file in left && file in side
    ensures var before := MergePosix(into, Done(side, left));
      At(before, file) == At(into, file) &&
      MergePosix(into, Done(side, left - {file})) == before[file := MergeCounts(At(into, file), side[file])]
  {
    MergeNothing(At(into, file));
    assert Done(side, left - {file}) == Done(side, left)[file := side[file]];
    MergeOne(into, Done(side, left), file, side[file]);
  }

  method FoldPosix(into: PosixEntries, side: PosixEntries) returns (entries: PosixEntries)
    ensures entries == MergePosix(into, side)
  {
    entries := into;
    var left := side.Keys;
    forall f | f in into ensures MergeCounts(At(into, f), map[]) == into[f] {
      MergeNothing(into[f]);
    }
    assert Done(side, left) == map[];
    while left != {}
      invariant left <= side.Keys
      invariant entries == MergePosix(into, Done(side, left))
      decreases left
    {
      var file :| file in left;
      MergeNext(into, side, left, file);
      var merged := FoldCounts(At(entries, file), side[file]);
      entries := entries[file := merged];
      left := left - {file};
    }
    assert Done(side, left) == side;
  }

  /** The part of counts for the first n rules. */
  function FirstRules(counts: Counts, n: nat): Counts
    requires n <= 4
  {
    map r | r in counts && r in RULES[..n] :: counts[r]
  }

  lemma FirstRulesNext(counts: Counts, n: nat)
    requires n < 4
    ensures RULES[n] !in FirstRules(counts, n)
    ensures FirstRules(counts, n + 1) ==
              if RULES[n] in counts then FirstRules(counts, n)[RULES[n] := counts[RULES[n]]] else FirstRules(counts, n)
  {
    assert RULES[..n + 1] == RULES[..n] + [RULES[n]];
  }

  lemma MergeRule(into: Counts, part: Counts, rule: Rule, n: nat)
    requires rule !in part
    ensures CountOf(MergeCounts(into, part), rule) == CountOf(into, rule)
    ensures MergeCounts(into, part[rule := n]) ==
              MergeCounts(into, part)[rule := if CountOf(into, rule) > n then CountOf(into, rule) else n]
  {
  }

  method FoldCounts(into: Counts, counts: Counts) returns (merged: Counts)
    ensures merged == MergeCounts(into, counts)
  {
    merged := into;
    var i := 0;
    assert FirstRules(counts, 0) == map[];
    MergeNothing(into);
    while i < 4
      invariant i <= 4
      invariant merged == MergeCounts(into, FirstRules(counts, i))
    {
      var rule := RULES[i];
      FirstRulesNext(counts, i);
      if rule in counts {
        MergeRule(into, FirstRules(counts, i), rule, counts[rule]);
        merged := merged[rule := if CountOf(merged, rule) > counts[rule] then CountOf(merged, rule) else counts[rule]];
      }
      i := i + 1;
    }
    EveryRule();
    assert FirstRules(counts, 4) == counts;
  }

  /** The number of findings for each rule; a rule without findings has no count. */
  method CountFindings(findings: seq<Finding>) returns (counts: Counts)
    ensures forall r: Rule :: CountOf(counts, r) == |Sites(findings, r)| && (r in counts <==> Sites(findings, r) != [])
  {
    counts := map[];
    var i := 0;
    while i < |findings|
      invariant i <= |findings|
      invariant forall r: Rule ::
        CountOf(counts, r) == |Sites(findings[..i], r)| && (r in counts <==> Sites(findings[..i], r) != [])
    {
      var f := findings[i];
      SitesNext(findings, i);
      counts := counts[f.rule := CountOf(counts, f.rule) + 1];
      i := i + 1;
    }
    assert findings[..i] == findings;
  }

  /** The findings of one rule, in order. */
  function Sites(findings: seq<Finding>, r: Rule): seq<Finding> {
    if findings == [] then []
    else (if findings[0].rule == r then [findings[0]] else []) + Sites(findings[1..], r)
  }

  lemma {:induction false} SitesNext(findings: seq<Finding>, i: nat)
    requires i < |findings|
    ensures forall r: Rule ::
      Sites(findings[..i + 1], r) == Sites(findings[..i], r) + (if findings[i].rule == r then [findings[i]] else [])
    decreases |findings|
  {
    if i == 0 {
      assert findings[..1][1..] == [] && findings[..0] == [];
    } else {
      SitesNext(findings[1..], i - 1);
      assert findings[..i + 1][1..] == findings[1..][..i] && findings[..i][1..] == findings[1..][..i - 1];
    }
  }

  /** Growth fails, shrinking is informational: every file of either side is compared, rule by rule. */
  method CompareToBaseline(scan: map<Key, seq<Finding>>, baseline: PosixEntries)
    returns (growth: seq<Delta>, shrunk: seq<Delta>)
    ensures forall d :: d in growth <==> IsDelta(scan, baseline, d) && d.actual > d.baseline
    ensures forall d :: d in shrunk <==> IsDelta(scan, baseline, d) && d.actual < d.baseline
  {
    growth, shrunk := [], [];
    var left := scan.Keys + baseline.Keys;
    while left != {}
      invariant left <= scan.Keys + baseline.Keys
      invariant forall d :: d in growth <==>
        IsDelta(scan, baseline, d) && d.actual > d.baseline && d.file in scan.Keys + baseline.Keys && d.file !in left
      invariant forall d :: d in shrunk <==>
        IsDelta(scan, baseline, d) && d.actual < d.baseline && d.file in scan.Keys + baseline.Keys && d.file !in left
      decreases left
    {
      var file :| file in left;
      var more, less := CompareFile(scan, baseline, file);
      growth, shrunk := growth + more, shrunk + less;
      left := left - {file};
    }
  }

  function Actual(scan: map<Key, seq<Finding>>, file: Key, r: Rule): nat {
    if file in scan then |Sites(scan[file], r)| else 0
  }

  predicate IsDelta(scan: map<Key, seq<Finding>>, baseline: PosixEntries, d: Delta) {
    d.baseline == CountOf(At(baseline, d.file), d.rule) && d.actual == Actual(scan, d.file, d.rule)
  }

  method CompareFile(scan: map<Key, seq<Finding>>, baseline: PosixEntries, file: Key)
    returns (growth: seq<Delta>, shrunk: seq<Delta>)
    ensures forall d :: d in growth <==> d.file == file && IsDelta(scan, baseline, d) && d.actual > d.baseline
    ensures forall d :: d in shrunk <==> d.file == file && IsDelta(scan, baseline, d) && d.actual < d.baseline
  {
    growth, shrunk := [], [];
    var actual := CountFindings(if file in scan then scan[file] else []);
    var base := At(baseline, file);
    var i := 0;
    while i < 4
      invariant i <= 4
      invariant forall d :: d in growth <==>
        d.file == file && IsDelta(scan, baseline, d) && d.actual > d.baseline && d.rule in RULES[..i]
      invariant forall d :: d in shrunk <==>
        d.file == file && IsDelta(scan, baseline, d) && d.actual < d.baseline && d.rule in RULES[..i]
    {
      var rule := RULES[i];
      assert RULES[..i + 1] == RULES[..i] + [rule];
      var a, b := CountOf(actual, rule), CountOf(base, rule);
      if a > b {
        growth := growth + [Delta(file, rule, b, a)];
      } else if a < b {
        shrunk := shrunk + [Delta(file, rule, b, a)];
      }
      i := i + 1;
    }
    EveryRule();
  }

  /** Merging counts is commutative and idempotent. */
  lemma PosixUnionLaws(a: PosixEntries, b: PosixEntries)
    ensures PosixUnion(Some(a), Some(b)) == PosixUnion(Some(b), Some(a))
    ensures PosixUnion(Some(a), Some(a)) == a
  {
    forall f ensures MergeCounts(At(a, f), At(a, f)) == At(a, f) {
    }
    forall f ensures MergeCounts(At(a, f), At(b, f)) == MergeCounts(At(b, f), At(a, f)) {
    }
  }

  lemma MergeAssociates(x: Counts, y: Counts, z: Counts)
    ensures MergeCounts(MergeCounts(x, y), z) == MergeCounts(x, MergeCounts(y, z))
  {
    var xy, yz := MergeCounts(x, y), MergeCounts(y, z);
    var l, r := MergeCounts(xy, z), MergeCounts(x, yz);
    assert l.Keys == r.Keys;
    forall rule | rule in l ensures l[rule] == r[rule] {
      CountMerged(x, y, rule);
      CountMerged(y, z, rule);
      CountMerged(xy, z, rule);
      CountMerged(x, yz, rule);
    }
  }

  lemma CountMerged(a: Counts, b: Counts, r: Rule)
    ensures CountOf(MergeCounts(a, b), r) == if CountOf(a, r) > CountOf(b, r) then CountOf(a, r) else CountOf(b, r)
  {
  }

  /** ... and associative. */
  lemma PosixUnionAssociates(a: PosixEntries, b: PosixEntries, c: PosixEntries)
    ensures PosixUnion(Some(PosixUnion(Some(a), Some(b))), Some(c)) ==
            PosixUnion(Some(a), Some(PosixUnion(Some(b), Some(c))))
  {
    var l := PosixUnion(Some(PosixUnion(Some(a), Some(b))), Some(c));
    var r := PosixUnion(Some(a), Some(PosixUnion(Some(b), Some(c))));
    forall f | f in l ensures l[f] == r[f] {
      MergeAt(a, b, f);
      MergeAt(b, c, f);
      MergeAssociates(At(a, f), At(b, f), At(c, f));
    }
  }

  lemma MergeAt(a: PosixEntries, b: PosixEntries, f: Key)
    ensures At(PosixUnion(Some(a), Some(b)), f) == MergeCounts(At(a, f), At(b, f))
  {
  }

  /** A count grows past the union exactly when it grows past both sides. */
  lemma PosixUnionRefuses(ours: Option<PosixEntries>, theirs: Option<PosixEntries>, f: Key, r: Rule, actual: nat)
    ensures actual > CountOf(At(PosixUnion(ours, theirs), f), r) <==>
              && actual > CountOf(At(if ours.Some? then ours.value else map[], f), r)
              && actual > CountOf(At(if theirs.Some? then theirs.value else map[], f), r)
  {
  }

  // ----- the type-check error count

  datatype Typecheck = Typecheck(errors: nat, reason: Option<string>)

  function Errors(t: Option<Typecheck>): nat {
    if t.Some? then t.value.errors else 0
  }

  function ReasonOf(t: Option<Typecheck>): Option<string> {
    if t.Some? && t.value.reason.Some? && !Blank(t.value.reason.value) then t.value.reason else None
  }

  function UnionTypecheck(ours: Option<Typecheck>, theirs: Option<Typecheck>): Typecheck {
    var (top, other) := if Errors(ours) >= Errors(theirs) then (ours, theirs) else (theirs, ours);
    Typecheck(Errors(top),
              if ReasonOf(top).Some? then ReasonOf(top) else ReasonOf(other))
  }

  /** The count is a least upper bound; a reason given on either side is never lost, and of two that of the version
      with more errors survives, ours on a tie. */
  lemma TypecheckUnionLaws(a: Option<Typecheck>, b: Option<Typecheck>, c: Option<Typecheck>, n: nat)
    ensures UnionTypecheck(a, b).errors <= n <==> Errors(a) <= n && Errors(b) <= n
    ensures UnionTypecheck(a, b).errors == UnionTypecheck(b, a).errors
    ensures UnionTypecheck(Some(UnionTypecheck(a, b)), c).errors == UnionTypecheck(a, Some(UnionTypecheck(b, c))).errors
    ensures UnionTypecheck(a, b).reason.Some? <==> ReasonOf(a).Some? || ReasonOf(b).Some?
    ensures UnionTypecheck(a, b).reason == ReasonOf(Some(UnionTypecheck(a, b)))
    ensures ReasonOf(a).Some? && (ReasonOf(b).None? || Errors(b) <= Errors(a)) ==>
              UnionTypecheck(a, b).reason == ReasonOf(a)
    ensures ReasonOf(b).Some? && (ReasonOf(a).None? || Errors(a) < Errors(b)) ==>
              UnionTypecheck(a, b).reason == ReasonOf(b)
  {
  }

  /** One version gives no reason, and the other two give different ones. */
  predicate Contested(silent: Option<Typecheck>, x: Option<Typecheck>, y: Option<Typecheck>) {
    && ReasonOf(silent).None? && ReasonOf(x).Some? && ReasonOf(y).Some? && ReasonOf(x) != ReasonOf(y)
  }

  /** Which reason survives three merges depends on the grouping exactly when a version with the most errors gives
      no reason, the other two give different ones, and the two groupings hand it different ones: the silent version
      first, in the middle, or last. */
  lemma TypecheckReasonAssociates(a: Option<Typecheck>, b: Option<Typecheck>, c: Option<Typecheck>)
    ensures UnionTypecheck(Some(UnionTypecheck(a, b)), c).reason == UnionTypecheck(a, Some(UnionTypecheck(b, c))).reason
            <==> !(|| (Contested(a, b, c) && Errors(b) < Errors(c) <= Errors(a))
                   || (Contested(b, a, c) && Errors(a) < Errors(b) && Errors(c) <= Errors(b))
                   || (Contested(c, a, b) && Errors(b) <= Errors(a) < Errors(c)))
  {
    TypecheckUnionLaws(a, b, c, 0);
    TypecheckUnionLaws(b, c, a, 0);
  }

  /** An instance: the middle version's reason survives one grouping and the last one's the other. */
  lemma TypecheckReasonDoesNotAssociate()
    ensures var a, b, c := Some(Typecheck(5, None)), Some(Typecheck(3, Some("x"))), Some(Typecheck(4, Some("y")));
      UnionTypecheck(Some(UnionTypecheck(a, b)), c).reason != UnionTypecheck(a, Some(UnionTypecheck(b, c))).reason
  {
    var a, b, c := Some(Typecheck(5, None)), Some(Typecheck(3, Some("x"))), Some(Typecheck(4, Some("y")));
    assert 'x' in "x" && 'y' in "y";
    assert !Blank("x") && !Blank("y");
    assert "x"[0] != "y"[0];
    TypecheckReasonAssociates(a, b, c);
  }
}
